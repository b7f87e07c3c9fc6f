/** Runs from a new scheduler, and what its evictions cost the peers whose items they drop. */
module SchedulerLeak {
  import opened Results
  import opened SchedulerModel
  import opened SchedulerRuns

  /** A new scheduler is a start for every run: bounds and caps hold, and each class is served in order of arrival. */
  lemma RunFromInitial(limits: Limits, wC: int, wN: int, wB: int, ops: seq<Op>, k: Class)
    ensures var s := Initial(limits, wC, wN, wB);
      && s.patIdx < |s.pattern| && Inv(Exec(s, ops)) && (NoEviction(s, ops) ==> Exact(Exec(s, ops)))
      && Pushed(s, ops, k) == Gone(s, ops, k) + Exec(s, ops).queues.Of(k)
      && Gone(s, ops, Critical) == Served(s, ops, Critical)
  {
    hide Inv, Exact, Exec, NoEviction, Pushed, Gone, Served;
    var s := Initial(limits, wC, wN, wB);
    InitialInv(limits, wC, wN, wB);
    RunKeepsInv(s, ops);
    RunIsFifo(s, ops, k);
    assert s.queues.Of(k) == [];
    assert s.queues.Of(k) + Pushed(s, ops, k) == Pushed(s, ops, k);
    if NoEviction(s, ops) {
      RunKeepsExact(s, ops);
    }
  }

  // ---------------------------------------------------------------- charges without items

  /** The charges of a peer for which nothing is queued. */
  function Leak(s: Sched, peer: string, k: Class): (r: int) {
    QuotaOf(s, peer).Of(k) - Count(s.queues.Of(k), peer)
  }

  /** Items evicted from class `k` along a run. */
  function Evicted(s: Sched, ops: seq<Op>, k: Class): (r: seq<SchedItem>)
    requires s.patIdx < |s.pattern|
  {
    if ops == [] then []
    else Evicted(s, ops[..|ops| - 1], k) + EvictedBy(Exec(s, ops[..|ops| - 1]), ops[|ops| - 1], k)
  }

  lemma {:induction false} CountConcat(a: seq<SchedItem>, b: seq<SchedItem>, peer: string)
    ensures Count(a + b, peer) == Count(a, peer) + Count(b, peer)
  {
    if a == [] {
      assert a + b == b;
    } else {
      CountConcat(a[1..], b, peer);
      assert (a + b)[1..] == a[1..] + b;
    }
  }

  lemma CountOne(it: SchedItem, peer: string)
    ensures Count([it], peer) == (if it.peerId == peer then 1 else 0) && Count([], peer) == 0
  {
    assert [it][1..] == [];
  }

  /** Queueing charges the peer for the queued item and for nothing else. */
  lemma EnqueueCharges(s: Sched, op: Op, x: string, k: Class)
    requires Inv(s) && op.Enq?
    ensures QuotaOf(Do(s, op), x).Of(k) == QuotaOf(s, x).Of(k) + Count(PushedBy(s, op, k), x)
  {
    hide Enqueue, Settle, PeerOk, PeerName, Queues.Of, Queues.With, Count, Victim;
    EnqueueEffect(s, op.peer, op.cls, op.item);
    CountOne(op.item.(peerId := PeerName(op.peer)), x);
  }

  /** Serving uncharges the peer for the served item and for nothing else. */
  lemma ServeUncharges(s: Sched, x: string, k: Class)
    requires Inv(s)
    ensures QuotaOf(Do(s, Serve), x).Of(k) == QuotaOf(s, x).Of(k) - Count(ServedBy(s, Serve, k), x)
  {
    hide Next, PeerOk, NextClass, Discharge, Queues.Of, Queues.With, Count, QuotaOf, Quota.Of;
    NextEffect(s);
    CountNothing(x);
    if NextClass(s).Some? {
      var j := NextClass(s).value;
      assert PeerOk(s, s.queues.Of(j)[0].peerId);
      ServedCharge(s, Next(s).0, j, x, k);
    } else {
      SameQuota(s, Next(s).0, x);
    }
  }

  lemma ServedCharge(s: Sched, s': Sched, j: Class, x: string, k: Class)
    requires Served1(s, s', j) && PeerOk(s, s.queues.Of(j)[0].peerId)
    ensures QuotaOf(s', x).Of(k) == QuotaOf(s, x).Of(k) - Count(if j == k then [s.queues.Of(j)[0]] else [], x)
  {
    hide PeerOk, Served1, Count, Queues.Of, QuotaOf, Quota.Of;
    ServedHead(s, s', j);
    ServedQuota(s, s', j, x);
    CountOne(s.queues.Of(j)[0], x);
  }

  lemma ServedHead(s: Sched, s': Sched, j: Class)
    requires Served1(s, s', j)
    ensures s.queues.Of(j) != []
  {
  }

  lemma SameQuota(s: Sched, t: Sched, x: string)
    requires s.peers == t.peers
    ensures QuotaOf(s, x) == QuotaOf(t, x)
  {
  }

  lemma CountNothing(x: string)
    ensures Count([], x) == 0
  {
  }

  /** Each operation adds to the leak exactly the items it evicts. */
  lemma OneStepLeak(s: Sched, op: Op, x: string, k: Class)
    requires Inv(s)
    ensures Leak(Do(s, op), x, k) == Leak(s, x, k) + Count(EvictedBy(s, op, k), x)
  {
    hide PeerOk, Do, PushedBy, ServedBy, EvictedBy, Count, QuotaOf, Queues.Of, Quota.Of;
    OneStepFifo(s, op, k);
    var before, pushed, served, evicted, after :=
      s.queues.Of(k), PushedBy(s, op, k), ServedBy(s, op, k), EvictedBy(s, op, k), Do(s, op).queues.Of(k);
    CountConcat(before, pushed, x);
    CountConcat(served + evicted, after, x);
    CountConcat(served, evicted, x);
    CountNothing(x);
    if op.Enq? {
      EnqueueCharges(s, op, x, k);
      NoServe(s, op, k);
    } else {
      ServeUncharges(s, x, k);
      NoPush(s, op, k);
    }
  }

  lemma NoServe(s: Sched, op: Op, k: Class)
    requires s.patIdx < |s.pattern| && op.Enq?
    ensures ServedBy(s, op, k) == []
  {
  }

  lemma NoPush(s: Sched, op: Op, k: Class)
    requires op.Serve?
    ensures PushedBy(s, op, k) == []
  {
  }

  /** Conservation: along every run the charges of a peer grow by what is queued and by what was evicted. */
  lemma {:induction false} LeakCountsEvictions(s: Sched, ops: seq<Op>, x: string, k: Class)
    requires Inv(s)
    ensures Leak(Exec(s, ops), x, k) == Leak(s, x, k) + Count(Evicted(s, ops, k), x)
  {
    hide PeerOk, Do, EvictedBy, Leak, Count;
    if ops == [] {
      CountNothing(x);
    } else {
      var init, op := ops[..|ops| - 1], ops[|ops| - 1];
      var t := Exec(s, init);
      LeakCountsEvictions(s, init, x, k);
      RunKeepsInv(s, init);
      OneStepLeak(t, op, x, k);
      CountConcat(Evicted(s, init, k), EvictedBy(t, op, k), x);
    }
  }

  /** From a new scheduler on, a peer is charged exactly for its queued and its evicted items. */
  lemma ChargesAreQueuedPlusEvicted(limits: Limits, wC: int, wN: int, wB: int, ops: seq<Op>, x: string, k: Class)
    ensures var s := Initial(limits, wC, wN, wB);
      QuotaOf(Exec(s, ops), x).Of(k) == Count(Exec(s, ops).queues.Of(k), x) + Count(Evicted(s, ops, k), x)
  {
    hide Inv, Exec, Evicted;
    var s := Initial(limits, wC, wN, wB);
    InitialInv(limits, wC, wN, wB);
    LeakCountsEvictions(s, ops, x, k);
  }

  // ---------------------------------------------------------------- starvation

  /** All charges of a peer without queued items. */
  function TotalLeak(s: Sched, peer: string): (r: int) {
    Leak(s, peer, Critical) + Leak(s, peer, Normal) + Leak(s, peer, Background)
  }

  /** The evicted items of a peer fill its share of the queue, or the class and every class below it. */
  ghost predicate Starved(s: Sched, peer: string, k: Class) {
    || TotalLeak(s, peer) >= s.limits.maxPerPeer
    || forall j: Class | AtOrBelow(j, k) :: Leak(s, peer, j) >= s.limits.Of(j)
  }

  /** An item settles nowhere exactly if its peer or every class it may be demoted to is full. */
  lemma SettlesNowhereIff(limits: Limits, q: Quota, k: Class)
    ensures Settle(limits, q, k) == None <==>
      q.total >= limits.maxPerPeer || forall j: Class | AtOrBelow(j, k) :: q.Of(j) >= limits.Of(j)
  {
    assert Settle(limits, q, Background) == None <==> q.Of(Background) >= limits.Of(Background)
                                                       || q.total >= limits.maxPerPeer;
    assert AtOrBelow(Background, k) && AtOrBelow(k, k) && (k == Critical ==> AtOrBelow(Normal, k));
  }

  lemma NowhereIsRefused(s: Sched, peer: string, k: Class, item: SchedItem)
    requires Settle(s.limits, QuotaOf(s, PeerName(peer)), k) == None
    ensures !Enqueue(s, peer, k, item).1
  {
    hide PeerName, MakeRoom, Drained, Settle, QuotaOf, Queues.With, Queues.Of;
  }

  lemma SomewhereIsQueued(s: Sched, peer: string, k: Class, item: SchedItem)
    requires s.queues.Total() == 0 && Settle(s.limits, QuotaOf(s, PeerName(peer)), k).Some?
    ensures Enqueue(s, peer, k, item).1
  {
    hide PeerName, Settle, QuotaOf, Queues.With, Queues.Of;
  }

  lemma LeakIsCharged(s: Sched, peer: string)
    requires Inv(s)
    ensures TotalLeak(s, peer) <= QuotaOf(s, peer).total
    ensures forall k: Class :: Leak(s, peer, k) <= QuotaOf(s, peer).Of(k) <= AtLeastZero(s.limits.Of(k))
    ensures s.queues.Total() == 0 ==> TotalLeak(s, peer) == QuotaOf(s, peer).total
    ensures s.queues.Total() == 0 ==> forall k: Class :: Leak(s, peer, k) == QuotaOf(s, peer).Of(k)
  {
    hide Queues.Of, Quota.Of, QuotaOf, Limits.Of;
    assert PeerOk(s, peer);
    forall k: Class
      ensures Leak(s, peer, k) <= QuotaOf(s, peer).Of(k) <= AtLeastZero(s.limits.Of(k))
      ensures s.queues.Total() == 0 ==> Leak(s, peer, k) == QuotaOf(s, peer).Of(k)
    {
      assert ClassOk(s, peer, k);
      if s.queues.Total() == 0 {
        NothingQueued(s, k);
        CountNothing(peer);
      }
    }
  }

  lemma NothingQueued(s: Sched, k: Class)
    requires s.queues.Total() == 0
    ensures s.queues.Of(k) == []
  {
  }

  /** While all queues are empty, an item is refused exactly if its peer is starved in its class. */
  lemma RefusedExactlyIfStarved(s: Sched, peer: string, k: Class, item: SchedItem)
    requires Inv(s) && s.queues.Total() == 0
    ensures Enqueue(s, peer, k, item).1 <==> !Starved(s, PeerName(peer), k)
  {
    hide PeerOk, Enqueue, Settle, PeerName, QuotaOf, Leak, TotalLeak, AtOrBelow, Quota.Of, Limits.Of;
    LeakIsCharged(s, PeerName(peer));
    SettlesNowhereIff(s.limits, QuotaOf(s, PeerName(peer)), k);
    if Settle(s.limits, QuotaOf(s, PeerName(peer)), k) == None {
      NowhereIsRefused(s, peer, k, item);
    } else {
      SomewhereIsQueued(s, peer, k, item);
    }
  }

  lemma StarvedIsRefused(s: Sched, peer: string, k: Class, item: SchedItem)
    requires Inv(s) && Starved(s, PeerName(peer), k)
    ensures !Enqueue(s, peer, k, item).1
  {
    hide PeerOk, Enqueue, Settle, PeerName, QuotaOf, Leak, TotalLeak, AtOrBelow, Quota.Of, Limits.Of;
    LeakIsCharged(s, PeerName(peer));
    SettlesNowhereIff(s.limits, QuotaOf(s, PeerName(peer)), k);
    NowhereIsRefused(s, peer, k, item);
  }

  /** Leaks never shrink, so a starved peer stays starved. */
  lemma StarvedStays(s: Sched, ops: seq<Op>, peer: string, k: Class)
    requires Inv(s) && Starved(s, peer, k)
    ensures Starved(Exec(s, ops), peer, k)
  {
    hide PeerOk, Leak, Count, Evicted, AtOrBelow, Limits.Of;
    forall j: Class ensures Leak(Exec(s, ops), peer, j) >= Leak(s, peer, j) {
      LeakCountsEvictions(s, ops, peer, j);
    }
  }

  // ---------------------------------------------------------------- draining the queues

  function Serves(n: nat): (r: seq<Op>) {
    seq(n, i => Serve)
  }

  lemma ServesMore(n: nat)
    requires n > 0
    ensures Serves(n) != [] && Serves(n)[n - 1] == Serve && Serves(n)[..n - 1] == Serves(n - 1) && |Serves(n)| == n
  {
  }

  /** A pattern with every class serves as many items as are queued, and evicts none. */
  lemma {:induction false} ServesDrain(s: Sched, n: nat)
    requires Inv(s) && forall k: Class :: k in s.pattern
    ensures var t := Exec(s, Serves(n));
      && Inv(t) && t.queues.Total() == AtLeastZero(s.queues.Total() - n)
      && forall x: string, k: Class :: Leak(t, x, k) == Leak(s, x, k)
  {
    hide PeerOk, Serves, Leak, Do, Count, EvictedBy;
    if n == 0 {
      assert Serves(0) == [] by { NoServes(); }
    } else {
      ServesMore(n);
      ServesDrain(s, n - 1);
      var t := Exec(s, Serves(n - 1));
      RunKeepsInv(s, Serves(n));
      ServeShrinks(t);
      forall x: string, k: Class ensures Leak(Do(t, Serve), x, k) == Leak(t, x, k) {
        OneStepLeak(t, Serve, x, k);
        ServeEvictsNothing(t, k);
        CountNothing(x);
      }
    }
  }

  lemma NoServes()
    ensures Serves(0) == []
  {
  }

  lemma ServeEvictsNothing(s: Sched, k: Class)
    requires s.patIdx < |s.pattern|
    ensures EvictedBy(s, Serve, k) == []
  {
  }

  lemma ServeShrinks(s: Sched)
    requires s.patIdx < |s.pattern| && forall k: Class :: k in s.pattern
    ensures Do(s, Serve).queues.Total() == if s.queues.Total() == 0 then 0 else s.queues.Total() - 1
  {
    hide Next, NextClass, Discharge;
    NextEffect(s);
    NextFailsExactly(s);
  }

  /**
   * A peer is starved in a class exactly if its items of that class are refused in every continuation, whatever
   * is served, evicted or queued in between.
   */
  lemma StarvedExactly(s: Sched, peer: string, k: Class, item: SchedItem)
    requires Inv(s) && forall j: Class :: j in s.pattern
    ensures Starved(s, PeerName(peer), k) <==> forall ops: seq<Op> :: !Enqueue(Exec(s, ops), peer, k, item).1
  {
    hide PeerOk, Exec, Enqueue, Starved, PeerName, Serves, Leak;
    if Starved(s, PeerName(peer), k) {
      forall ops: seq<Op> ensures !Enqueue(Exec(s, ops), peer, k, item).1 {
        StarvedForEver(s, ops, peer, k, item);
      }
    } else {
      var ops := Serves(s.queues.Total());
      ServesDrain(s, s.queues.Total());
      SameLeakSameStarved(s, Exec(s, ops), PeerName(peer), k);
      RefusedExactlyIfStarved(Exec(s, ops), peer, k, item);
    }
  }

  lemma SameLeakSameStarved(s: Sched, t: Sched, peer: string, k: Class)
    requires t.limits == s.limits && forall j: Class :: Leak(t, peer, j) == Leak(s, peer, j)
    ensures Starved(t, peer, k) <==> Starved(s, peer, k)
  {
    hide Leak, AtOrBelow, Limits.Of;
  }

  /**
   * Once the evicted items of a peer fill its share, or a class and every class below it, every later item of
   * that class is refused, whatever happens in between and even when all queues are empty.
   */
  lemma StarvedForEver(s: Sched, ops: seq<Op>, peer: string, k: Class, item: SchedItem)
    requires Inv(s) && Starved(s, PeerName(peer), k)
    ensures !Enqueue(Exec(s, ops), peer, k, item).1
  {
    hide PeerOk, Exec, Enqueue, Starved, PeerName;
    RunKeepsInv(s, ops);
    StarvedStays(s, ops, PeerName(peer), k);
    StarvedIsRefused(Exec(s, ops), peer, k, item);
  }

  // ---------------------------------------------------------------- how far starvation can go

  lemma {:induction false} CriticalNeverEvicted(s: Sched, ops: seq<Op>)
    requires Inv(s)
    ensures Evicted(s, ops, Critical) == []
  {
    hide PeerOk, Do;
    if ops != [] {
      var init, op := ops[..|ops| - 1], ops[|ops| - 1];
      CriticalNeverEvicted(s, init);
      RunKeepsInv(s, init);
      OneStepFifo(Exec(s, init), op, Critical);
    }
  }

  /**
   * In every run from a new scheduler only normal and background items leak, each up to its limit. So critical
   * items are never starved if the limits of the other two classes together leave room in the peer's share.
   */
  lemma LeakIsBounded(limits: Limits, wC: int, wN: int, wB: int, ops: seq<Op>, x: string)
    ensures var t := Exec(Initial(limits, wC, wN, wB), ops);
      && Leak(t, x, Critical) == 0 && TotalLeak(t, x) <= AtLeastZero(limits.maxN) + AtLeastZero(limits.maxB)
      && (limits.maxC > 0 && AtLeastZero(limits.maxN) + AtLeastZero(limits.maxB) < limits.maxPerPeer ==>
            !Starved(t, x, Critical))
  {
    hide PeerOk, Exec, Evicted, Leak, Count;
    var s := Initial(limits, wC, wN, wB);
    var t := Exec(s, ops);
    InitialInv(limits, wC, wN, wB);
    InitialLeaksNothing(limits, wC, wN, wB, x);
    LeakCountsEvictions(s, ops, x, Critical);
    CriticalNeverEvicted(s, ops);
    CountNothing(x);
    RunKeepsInv(s, ops);
    LeakIsCharged(t, x);
    assert Leak(t, x, Normal) <= AtLeastZero(limits.Of(Normal));
    assert Leak(t, x, Background) <= AtLeastZero(limits.Of(Background));
  }

  lemma InitialLeaksNothing(limits: Limits, wC: int, wN: int, wB: int, x: string)
    ensures Leak(Initial(limits, wC, wN, wB), x, Critical) == 0
  {
    hide Pattern;
    CountNothing(x);
  }

  /** One item in all and per class, and `m` items per peer. */
  function Tight(m: int): (r: Limits) {
    Limits(1, m, 1, 1, 1)
  }

  /**
   * One eviction is enough where a class holds one item: although all queues are empty, background items of the
   * peer are refused for ever, and its critical ones are too if it may queue only one item.
   */
  lemma StarvationIsReached(m: int, item: SchedItem, later: seq<Op>)
    requires m >= 1
    ensures var s := Initial(Tight(m), 1, 1, 1);
      var t := Exec(s, [Enq("a", Background, item), Enq("b", Critical, item), Serve]);
      && t.patIdx < |t.pattern| && t.queues.Total() == 0
      && !Enqueue(Exec(t, later), "a", Background, item).1
      && (Enqueue(t, "a", Critical, item).1 <==> m > 1)
  {
    hide Pattern, PeerName, Inv, Do, Exec, Starved, Enqueue;
    var s := Initial(Tight(m), 1, 1, 1);
    Names();
    InitialInv(Tight(m), 1, 1, 1);
    var a, b := Enq("a", Background, item), Enq("b", Critical, item);
    PatternWeights(1, 1, 1);
    ThreeOps(s, a, b, Serve);
    AfterA(s, m, item);
    AfterB(Do(s, a), m, item);
    AfterServe(Do(Do(s, a), b), m, item);
    var t := Exec(s, [a, b, Serve]);
    RunKeepsInv(s, [a, b, Serve]);
    StarvedForEver(t, later, "a", Background, item);
    RefusedExactlyIfStarved(t, "a", Critical, item);
  }

  lemma ThreeOps(s: Sched, a: Op, b: Op, c: Op)
    requires s.patIdx < |s.pattern|
    ensures Exec(s, [a, b, c]) == Do(Do(Do(s, a), b), c)
  {
    hide Do;
    assert [a, b, c][..2] == [a, b] && [a, b][..1] == [a] && [a][..0] == [];
    assert Exec(s, [a]) == Do(Exec(s, []), a);
    assert Exec(s, [a, b]) == Do(Exec(s, [a]), b);
  }

  lemma Names()
    ensures PeerName("a") == "a" && PeerName("b") == "b"
  {
  }

  lemma AfterA(s: Sched, m: int, item: SchedItem)
    requires s.limits == Tight(m) && m >= 1
    requires s.queues == Queues([], [], []) && s.peers == map[] && s.patIdx < |s.pattern|
    ensures var t := Do(s, Enq("a", Background, item));
      && t.queues == Queues([], [], [item.(peerId := "a")]) && t.peers == map["a" := Quota(1, 0, 0, 1)]
      && t.limits == Tight(m)
  {
    hide PeerName, Evict, Drained, Settle;
    Names();
    EachSettles(m);
  }

  lemma AfterB(s: Sched, m: int, item: SchedItem)
    requires s.limits == Tight(m) && m >= 1 && s.patIdx < |s.pattern|
    requires s.queues == Queues([], [], [item.(peerId := "a")]) && s.peers == map["a" := Quota(1, 0, 0, 1)]
    ensures var t := Do(s, Enq("b", Critical, item));
      && t.queues == Queues([item.(peerId := "b")], [], []) && t.limits == Tight(m)
      && t.peers == map["a" := Quota(1, 0, 0, 1), "b" := Quota(1, 1, 0, 0)]
  {
    hide PeerName, Evict, Drained, MakeRoom, Settle;
    Names();
    EachSettles(m);
    OneIsEvicted(m, s.queues);
  }

  lemma EachSettles(m: int)
    requires m >= 1
    ensures Settle(Tight(m), NO_QUOTA, Critical) == Some(Critical)
    ensures Settle(Tight(m), NO_QUOTA, Background) == Some(Background)
  {
  }

  lemma OneIsEvicted(m: int, q: Queues)
    requires q.c == [] && q.n == [] && |q.b| == 1
    ensures MakeRoom(Tight(m), q, Critical) == Some(Queues([], [], []))
  {
    EvictOne(Tight(m), q);
  }

  lemma AfterServe(s: Sched, m: int, item: SchedItem)
    requires s.limits == Tight(m) && m >= 1 && s.patIdx < |s.pattern| && Critical in s.pattern
    requires s.queues == Queues([item.(peerId := "b")], [], [])
    requires s.peers == map["a" := Quota(1, 0, 0, 1), "b" := Quota(1, 1, 0, 0)]
    ensures var t := Do(s, Serve);
      && t.queues.Total() == 0 && Starved(t, "a", Background) && (Starved(t, "a", Critical) <==> m <= 1)
      && t.limits == Tight(m)
  {
    hide Next;
    NextEffect(s);
    NextFailsExactly(s);
    var t := Do(s, Serve);
    CountNothing("a");
    assert NextClass(s) == Some(Critical);
    assert t.peers["a"] == Quota(1, 0, 0, 1) && t.queues == Queues([], [], []);
    assert TotalLeak(t, "a") == 1 && Leak(t, "a", Critical) == 0 && AtOrBelow(Critical, Critical);
  }
}
