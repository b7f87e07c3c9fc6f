/** Concrete runs that show where the ledger does less than one might expect. */
module LedgerExamples {
  import opened LedgerIndexes
  import opened LedgerInvariants
  import opened LedgerModel
  import opened LedgerRuns
  import opened PruningEffects
  import opened Results
  import opened Retention
  import opened SnapshotReload
  import opened Sorting
  import opened Strings
  import opened Sync
  import opened SyncConvergence
  import opened SyncModel
  import opened SyncRounds

  // ---------------------------------------------------------------- a small world

  const BLANK_NAME := " n"

  /** Identifiers are read off the payload hash. */
  function SampleId(hash: string): (id: string) {
    if hash in {"b", "c", "x"} then hash else "a"
  }

  ghost const SAMPLE_ENV: Env := Env(
    (ev: Event) => SampleId(ev.payloadHash), (k, i, g) => true, k => true, g => true,
    (ev: Event) => None, (ev, t) => true, h => "", r => "", (a, b, c, d, e, f) => "", (k, pl) => ("b", ""),
    (ev: Event) => "s", (ev: Event) => Some(1))

  ghost const OPEN_POLICY: Policy := Policy(true, 0, 0, true, map[], Trust(map[], map[], 0))

  /** The first event of an author. */
  function Sample(id: string, author: string, parents: seq<string>, kind: string): (ev: Event) {
    Event(SCHEMA_V1, id, 1, author, "k", 1, "", parents, kind, id, "", "s")
  }

  lemma SampleTexts()
    ensures TrimSpace(BLANK_NAME) == "n" && TrimSpace("a") == "a" && TrimSpace("b") == "b" && TrimSpace("c") == "c"
    ensures TrimSpace("x") == "x" && TrimSpace("k") == "k" && TrimSpace("n") == "n" && TrimSpace("m") == "m"
    ensures TrimSpace("s") == "s" && TrimSpace("") == ""
  {
    assert TrimLeft(BLANK_NAME) == TrimLeft("n") == "n";
  }

  lemma SampleKinds()
    ensures TrimSpace(KIND_SYNC_SUMMARY) != "" && TrimSpace(KIND_CHAT_MESSAGE) != ""
    ensures ByteLength(KIND_SYNC_SUMMARY) <= 64 && ByteLength(KIND_CHAT_MESSAGE) <= 64 && ByteLength("") == 0
  {
    hide TrimSpace, ByteLength;
    ByteLengthBound("");
    ByteLengthBound(KIND_SYNC_SUMMARY);
    ByteLengthBound(KIND_CHAT_MESSAGE);
    NotBlank(KIND_SYNC_SUMMARY);
    NotBlank(KIND_CHAT_MESSAGE);
  }

  /** Text that starts and ends with a letter is its own trimmed form. */
  lemma NotBlank(s: string)
    requires s != "" && !IsSpace(s[0]) && !IsSpace(s[|s| - 1])
    ensures TrimSpace(s) == s
  {
  }

  lemma {:induction false} ByteLengthBound(s: string)
    ensures ByteLength(s) <= 4 * |s|
  {
    if s != [] {
      ByteLengthBound(s[1..]);
    }
  }

  lemma SampleIsAcceptable(id: string, author: string, parents: seq<string>, kind: string, now: int)
    requires id in {"a", "b", "c", "x"} && author in {"n", "m", BLANK_NAME} && |parents| <= MAX_PARENTS
    requires kind in {KIND_CHAT_MESSAGE, KIND_SYNC_SUMMARY}
    ensures Acceptable(SAMPLE_ENV, OPEN_POLICY, now, Sample(id, author, parents, kind))
  {
    hide TrimSpace, ByteLength;
    SampleTexts();
    SampleKinds();
  }

  lemma SamplePlainIds()
    ensures PlainIds(SAMPLE_ENV)
  {
    hide TrimSpace;
    SampleTexts();
    forall ev: Event ensures TrimSpace(SAMPLE_ENV.contentId(ev)) == SAMPLE_ENV.contentId(ev) {
      assert SAMPLE_ENV.contentId(ev) == SampleId(ev.payloadHash);
    }
  }

  /** A fresh first event is stored. */
  lemma SampleIsStored(s: LState, ev: Event, now: int)
    requires Acceptable(SAMPLE_ENV, OPEN_POLICY, now, ev) && ev.seqNo == 1 && ev.id !in s.events && !Conflicts(s, ev)
    ensures Do(SAMPLE_ENV, s, Receive(ev, "", OPEN_POLICY, None, now)) == Stored(SAMPLE_ENV, s, ev)
  {
    hide Acceptable, Stored;
    AcceptedIsInserted(SAMPLE_ENV, s, ev, "", OPEN_POLICY, None, now);
  }

  lemma TwoSteps(env: Env, s: LState, a: Step, b: Step)
    ensures Exec(env, s, [a, b]) == Do(env, Do(env, s, a), b)
  {
    hide Do;
    assert [a, b][..1] == [a] && [a][..0] == [];
    assert Exec(env, s, [a]) == Do(env, Exec(env, s, []), a);
  }

  // ---------------------------------------------------------------- a node whose name carries blanks

  ghost const BLANK_FIRST: Event := Sample("a", BLANK_NAME, [], KIND_SYNC_SUMMARY)

  ghost const AFTER_BLANK: LState :=
    LState(map["a" := BLANK_FIRST], {}, map[(BLANK_NAME, 1) := "a"], map[], {}, {}, [])

  /**
   * Signing under an untrimmed name breaks the chain: the link is looked up under one name and signed under
   * another.
   */
  lemma BlankNameBreaksChain()
    ensures var steps := [Receive(BLANK_FIRST, "", OPEN_POLICY, None, 1),
                          Announce(OPEN_POLICY, Observer(BLANK_NAME, "k", true), SyncSummary, Other, 1)];
      !ChainOk(Exec(SAMPLE_ENV, EMPTY, steps))
  {
    hide Do, ChainOk, Sample;
    var first := Receive(BLANK_FIRST, "", OPEN_POLICY, None, 1);
    var second := Announce(OPEN_POLICY, Observer(BLANK_NAME, "k", true), SyncSummary, Other, 1);
    TwoSteps(SAMPLE_ENV, EMPTY, first, second);
    BlankIsStored();
    BlankBreaks();
  }

  lemma BlankIsStored()
    ensures Do(SAMPLE_ENV, EMPTY, Receive(BLANK_FIRST, "", OPEN_POLICY, None, 1)) == AFTER_BLANK
  {
    hide Do, Acceptable, TrimSpace;
    SampleIsAcceptable("a", BLANK_NAME, [], KIND_SYNC_SUMMARY, 1);
    SampleIsStored(EMPTY, BLANK_FIRST, 1);
    assert Refs(SAMPLE_ENV, BLANK_FIRST) == [];
    assert Stored(SAMPLE_ENV, EMPTY, BLANK_FIRST) == AFTER_BLANK;
  }

  lemma BlankLink()
    ensures NextLink(AFTER_BLANK, BLANK_NAME) == (2, "a") && Normalized(NextParents(AFTER_BLANK)) == []
  {
    hide TrimSpace;
    assert SeqsOf(AFTER_BLANK, BLANK_NAME) == {1} by {
      assert (BLANK_NAME, 1) in AFTER_BLANK.authorSeq;
    }
    assert NextParents(AFTER_BLANK) == [];
    assert Trims(Elements<string>([])) == {};
  }

  ghost const BLANK_SECOND: Event :=
    Event(SCHEMA_V1, "b", 1, "n", "k", 2, "a", [], KIND_SYNC_SUMMARY, "b", "", "s")

  lemma BlankSecondIsAcceptable()
    ensures Acceptable(SAMPLE_ENV, OPEN_POLICY, 1, BLANK_SECOND)
  {
    hide TrimSpace, ByteLength;
    SampleTexts();
    SampleKinds();
  }

  lemma BlankDraft()
    ensures NextDraft(SAMPLE_ENV, AFTER_BLANK, Observer(BLANK_NAME, "k", true), KIND_SYNC_SUMMARY, Other, 1)
        == BLANK_SECOND
  {
    hide TrimSpace, NextLink, NextParents, Normalized;
    SampleTexts();
    BlankLink();
  }

  lemma BlankBreaks()
    ensures !ChainOk(Do(SAMPLE_ENV, AFTER_BLANK,
                        Announce(OPEN_POLICY, Observer(BLANK_NAME, "k", true), SyncSummary, Other, 1)))
  {
    hide NextDraft, Acceptable, Track, Refs, MarkOf, Heads;
    BlankDraft();
    BlankSecondIsAcceptable();
    var t := Stored(SAMPLE_ENV, AFTER_BLANK, BLANK_SECOND);
    assert Emit(SAMPLE_ENV, AFTER_BLANK, OPEN_POLICY, Observer(BLANK_NAME, "k", true), KIND_SYNC_SUMMARY, Other, 1)
        == t;
    assert t.events["b"] == BLANK_SECOND && t.events["a"] == BLANK_FIRST;
    assert !Linked(t, t.events["b"]);
  }

  // ---------------------------------------------------------------- a pruning that hides an equivocation

  const PRUNE_OLD := ApplyRetention(RetentionPolicy(0, 10, false), 100)

  /** A chat message that becomes a head, and an old summary that nothing refers to. */
  function Talk(parents: seq<string>): (ev: Event) { Sample("a", "n", parents, KIND_CHAT_MESSAGE) }

  function Summary(): (ev: Event) { Sample("b", "m", [], KIND_SYNC_SUMMARY) }

  /** The message and the summary are stored, and the message is the only head. */
  lemma TalkStored(parents: seq<string>)
    requires parents == [] || parents == ["x"]
    ensures var s := Exec(SAMPLE_ENV, EMPTY,
                          [Receive(Talk(parents), "", OPEN_POLICY, None, 1),
                              Receive(Summary(), "", OPEN_POLICY, None, 1)]);
      && s.events == map["a" := Talk(parents), "b" := Summary()] && s.heads == {"a"} && s.compromised == {}
  {
    hide Do, Acceptable, Track, Refs, MarkOf;
    var a, b := Receive(Talk(parents), "", OPEN_POLICY, None, 1), Receive(Summary(), "", OPEN_POLICY, None, 1);
    TwoSteps(SAMPLE_ENV, EMPTY, a, b);
    SampleIsAcceptable("a", "n", parents, KIND_CHAT_MESSAGE, 1);
    SampleIsAcceptable("b", "m", [], KIND_SYNC_SUMMARY, 1);
    SampleIsStored(EMPTY, Talk(parents), 1);
    SampleIsStored(Stored(SAMPLE_ENV, EMPTY, Talk(parents)), Summary(), 1);
  }

  /** Pruning drops the summary and spares the message. */
  lemma SummaryDropped(s: LState, parents: seq<string>)
    requires parents == [] || parents == ["x"]
    requires s.events == map["a" := Talk(parents), "b" := Summary()] && s.heads == {"a"}
    ensures Pruned(s, PRUNE_OLD.retention, 100) == {"b"} && Do(SAMPLE_ENV, s, PRUNE_OLD) != s
    ensures Do(SAMPLE_ENV, s, PRUNE_OLD).events == map["a" := Talk(parents)]
    ensures Do(SAMPLE_ENV, s, PRUNE_OLD).compromised == s.compromised
  {
    hide Pruned, Retain, Sample;
    SummaryIsPruned(s, parents);
    RetainForgets(SAMPLE_ENV, s, PRUNE_OLD.retention, 100);
    assert s.events - {"b"} == map["a" := Talk(parents)];
  }

  lemma SummaryIsPruned(s: LState, parents: seq<string>)
    requires parents == [] || parents == ["x"]
    requires s.events == map["a" := Talk(parents), "b" := Summary()] && s.heads == {"a"}
    ensures Pruned(s, PRUNE_OLD.retention, 100) == {"b"}
  {
    hide Candidates, Excess;
    var pol := PRUNE_OLD.retention;
    assert !Referenced(s.events, "b");
    PrunedStored(s, pol, 100);
    assert "b" in Expired(s, pol, 100);
    assert "a" !in Pruned(s, pol, 100);
  }

  /**
   * A run in which an author signs two events with number 1 and nobody notices, because a pruning in between
   * has emptied the author index. The ledger can then no longer be reloaded.
   */
  lemma EquivocationAfterPruning()
    ensures var steps := [Receive(Talk([]), "", OPEN_POLICY, None, 1), Receive(Summary(), "", OPEN_POLICY, None, 1),
                          PRUNE_OLD, Receive(Sample("c", "n", [], KIND_CHAT_MESSAGE), "", OPEN_POLICY, None, 100)];
      var u := Exec(SAMPLE_ENV, EMPTY, steps);
      && "a" in u.events && "c" in u.events && u.compromised == {}
      && !OneEventPerNumber(u) && !Exact(SAMPLE_ENV, u) && Load(SAMPLE_ENV, SnapshotOf(u)).Err?
  {
    hide Do, Acceptable, Exact, OneEventPerNumber, Sample, Pruned, Sound, Load, SnapshotOf;
    var a, b := Receive(Talk([]), "", OPEN_POLICY, None, 1), Receive(Summary(), "", OPEN_POLICY, None, 1);
    var ev := Sample("c", "n", [], KIND_CHAT_MESSAGE);
    var c := Receive(ev, "", OPEN_POLICY, None, 100);
    var steps := [a, b, PRUNE_OLD, c];
    assert steps[..3] == [a, b, PRUNE_OLD] && steps[..3][..2] == [a, b];
    var s := Exec(SAMPLE_ENV, EMPTY, [a, b]);
    TalkStored([]);
    SummaryDropped(s, []);
    var t := Do(SAMPLE_ENV, s, PRUNE_OLD);
    assert Exec(SAMPLE_ENV, EMPTY, steps[..3]) == t;
    SampleIsAcceptable("c", "n", [], KIND_CHAT_MESSAGE, 100);
    SampleFields("c", []);
    SampleFields("a", []);
    PruningHidesEquivocation(SAMPLE_ENV, s, PRUNE_OLD, [], "a", ev, "", OPEN_POLICY, None, 100);
    ReceiveIs(SAMPLE_ENV, t, ev, 100);
    TwiceIsInexact(SAMPLE_ENV, Exec(SAMPLE_ENV, EMPTY, steps));
    EmptyStart(SAMPLE_ENV);
    RunIsSound(SAMPLE_ENV, EMPTY, steps);
    ReloadWorksExactly(SAMPLE_ENV, Exec(SAMPLE_ENV, EMPTY, steps));
  }

  lemma SampleFields(id: string, parents: seq<string>)
    ensures var ev := Sample(id, "n", parents, KIND_CHAT_MESSAGE);
      ev.id == id && ev.author == "n" && ev.seqNo == 1 && ev.parents == parents && ev.prev == ""
  {
  }

  lemma ReceiveIs(env: Env, t: LState, ev: Event, now: int)
    ensures Do(env, t, Receive(ev, "", OPEN_POLICY, None, now)) == Apply(env, t, ev, "", OPEN_POLICY, None, now).0
  {
  }

  lemma TwiceIsInexact(env: Env, u: LState)
    requires !OneEventPerNumber(u)
    ensures !Exact(env, u)
  {
    hide MissingExact, MarksExact, Keyed, AuthorSound;
  }

  // ---------------------------------------------------------------- a pruning that hides a missing parent

  ghost const PEER_STEPS: seq<Step> :=
    [Receive(Sample("x", "m", [], KIND_CHAT_MESSAGE), "", OPEN_POLICY, None, 1),
     Receive(Talk(["x"]), "", OPEN_POLICY, None, 1)]

  /** The peer holds the parent and the message, and the message is its head. */
  lemma PeerHoldsParent()
    ensures var peer := Exec(SAMPLE_ENV, EMPTY, PEER_STEPS);
      && Sound(SAMPLE_ENV, peer) && peer.heads == {"a"} && peer.events.Keys == {"a", "x"}
      && peer.events["a"] == Talk(["x"])
  {
    hide Do, Acceptable, Track, Refs, MarkOf, Sound;
    var x := Sample("x", "m", [], KIND_CHAT_MESSAGE);
    TwoSteps(SAMPLE_ENV, EMPTY, PEER_STEPS[0], PEER_STEPS[1]);
    assert PEER_STEPS == [PEER_STEPS[0], PEER_STEPS[1]];
    SampleIsAcceptable("x", "m", [], KIND_CHAT_MESSAGE, 1);
    SampleIsAcceptable("a", "n", ["x"], KIND_CHAT_MESSAGE, 1);
    SampleIsStored(EMPTY, x, 1);
    SampleIsStored(Stored(SAMPLE_ENV, EMPTY, x), Talk(["x"]), 1);
    EmptyStart(SAMPLE_ENV);
    RunIsSound(SAMPLE_ENV, EMPTY, PEER_STEPS);
  }

  /** Both the head and its parent are reachable at the peer. */
  lemma ParentReachable(peer: LState)
    requires peer.heads == {"a"} && peer.events.Keys == {"a", "x"} && peer.events["a"] == Talk(["x"])
    ensures Reachable(SAMPLE_ENV, peer, "x")
  {
    var path := ["a", "x"];
    assert "x" in Refs(SAMPLE_ENV, Talk(["x"]));
    assert RefPath(SAMPLE_ENV, peer, path);
  }

  /**
   * A pruned ledger and a sound peer with a full inventory: nothing is asked for, although the parent of the
   * peer's head, reachable from it, is missing.
   */
  lemma EmptyPlanAfterPruning(maxWant: int, weight: string -> int)
    ensures var t := Exec(SAMPLE_ENV, EMPTY, [Receive(Talk(["x"]), "", OPEN_POLICY, None, 1),
                                              Receive(Summary(), "", OPEN_POLICY, None, 1), PRUNE_OLD]);
      var peer, inv := Exec(SAMPLE_ENV, EMPTY, PEER_STEPS), Inventory(SYNC_SCHEMA_V1, ["a"], ["a", "x"]);
      && Sound(SAMPLE_ENV, peer) && FullInventory(peer, inv)
      && Plan(t, inv, maxWant, weight) == [] && Reachable(SAMPLE_ENV, peer, "x") && "x" !in t.events
  {
    hide Do, Sound, Plan, Reachable, Sample, Pruned, PlainIds;
    var a, b := Receive(Talk(["x"]), "", OPEN_POLICY, None, 1), Receive(Summary(), "", OPEN_POLICY, None, 1);
    var steps := [a, b, PRUNE_OLD];
    assert steps[..2] == [a, b];
    var s, peer := Exec(SAMPLE_ENV, EMPTY, [a, b]), Exec(SAMPLE_ENV, EMPTY, PEER_STEPS);
    var inv := Inventory(SYNC_SCHEMA_V1, ["a"], ["a", "x"]);
    TalkStored(["x"]);
    SummaryDropped(s, ["x"]);
    PeerHoldsParent();
    ParentReachable(peer);
    SamplePlainIds();
    assert FullInventory(peer, inv);
    PrunedLedgerAsksForHeadsOnly(SAMPLE_ENV, s, PRUNE_OLD, peer, inv, maxWant, weight);
  }

  // ---------------------------------------------------------------- a link that comes too late to be checked

  ghost const LAX_POLICY: Policy := OPEN_POLICY.(requireKnownPrev := false)

  /** A second event that names the first event of another author as its predecessor. */
  ghost const STRAY: Event := Event(SCHEMA_V1, "b", 2, "n", "k", 2, "a", [], KIND_SYNC_SUMMARY, "b", "", "s")

  ghost const STRAY_STEPS: seq<Step> :=
    [Receive(STRAY, "", LAX_POLICY, None, 2), Receive(Sample("a", "m", [], KIND_SYNC_SUMMARY), "", LAX_POLICY, None, 2)]

  lemma StrayIsAcceptable()
    ensures Acceptable(SAMPLE_ENV, LAX_POLICY, 2, STRAY)
    ensures Acceptable(SAMPLE_ENV, LAX_POLICY, 2, Sample("a", "m", [], KIND_SYNC_SUMMARY))
  {
    hide TrimSpace, ByteLength;
    SampleTexts();
    SampleKinds();
  }

  /** Both events are stored, although the link does not fit. */
  lemma StrayStored()
    ensures var u := Exec(SAMPLE_ENV, EMPTY, STRAY_STEPS);
      u.events == map["b" := STRAY, "a" := Sample("a", "m", [], KIND_SYNC_SUMMARY)]
  {
    hide Do, Sample;
    TwoSteps(SAMPLE_ENV, EMPTY, STRAY_STEPS[0], STRAY_STEPS[1]);
    assert STRAY_STEPS == [STRAY_STEPS[0], STRAY_STEPS[1]];
    StrayComesFirst();
    StrayIsJoined(Do(SAMPLE_ENV, EMPTY, STRAY_STEPS[0]));
  }

  lemma StrayComesFirst()
    ensures var s := Do(SAMPLE_ENV, EMPTY, Receive(STRAY, "", LAX_POLICY, None, 2));
      s.events == map["b" := STRAY] && s.authorSeq == map[("n", 2) := "b"]
  {
    hide Do, Apply, Acceptable, Track, Refs, MarkOf, Heads;
    StrayIsAcceptable();
    AcceptedIsInserted(SAMPLE_ENV, EMPTY, STRAY, "", LAX_POLICY, None, 2);
    LaxReceive(EMPTY, STRAY);
  }

  lemma StrayIsJoined(s: LState)
    requires s.events == map["b" := STRAY] && s.authorSeq == map[("n", 2) := "b"]
    ensures var a := Sample("a", "m", [], KIND_SYNC_SUMMARY);
      Do(SAMPLE_ENV, s, Receive(a, "", LAX_POLICY, None, 2)).events == map["b" := STRAY, "a" := a]
  {
    hide Do, Apply, Acceptable, Track, Refs, MarkOf, Heads;
    var a := Sample("a", "m", [], KIND_SYNC_SUMMARY);
    StrayIsAcceptable();
    AcceptedIsInserted(SAMPLE_ENV, s, a, "", LAX_POLICY, None, 2);
    LaxReceive(s, a);
  }

  lemma LaxReceive(s: LState, ev: Event)
    ensures Do(SAMPLE_ENV, s, Receive(ev, "", LAX_POLICY, None, 2))
      == Apply(SAMPLE_ENV, s, ev, "", LAX_POLICY, None, 2).0
  {
    hide Apply;
  }

  /**
   * A run without any pruning after which the ledger cannot be reloaded: a second event arrives before the older
   * event it names as its predecessor, so that nobody notices that the two have different authors.
   */
  lemma StrayLinkPreventsReload()
    ensures var u := Exec(SAMPLE_ENV, EMPTY, STRAY_STEPS);
      && Sound(SAMPLE_ENV, u) && Exact(SAMPLE_ENV, u) && OneEventPerNumber(u)
      && Load(SAMPLE_ENV, SnapshotOf(u)).Err?
  {
    hide Do, Sound, Exact, OneEventPerNumber, Load, SnapshotOf, Exec, OldLinksFit;
    var u := Exec(SAMPLE_ENV, EMPTY, STRAY_STEPS);
    EmptyStart(SAMPLE_ENV);
    RunIsSound(SAMPLE_ENV, EMPTY, STRAY_STEPS);
    ExactUntilPruned(SAMPLE_ENV, EMPTY, STRAY_STEPS);
    StrayStored();
    StrayDoesNotFit(u);
    ReloadWorksExactly(SAMPLE_ENV, u);
  }

  lemma StrayDoesNotFit(u: LState)
    requires u.events == map["b" := STRAY, "a" := Sample("a", "m", [], KIND_SYNC_SUMMARY)]
    ensures !OldLinksFit(u)
  {
    hide Less;
    var a := u.events["a"];
    assert u.events["b"] == STRAY && a.createdAt == 1 && a.author == "m";
    assert CreatedAt(u.events, "a") == 1 && CreatedAt(u.events, "b") == 2;
    assert OlderFirst(u.events)("a", "b");
    assert !OldLinkFits(u, "b");
  }

  // ---------------------------------------------------------------- an exchange that never gets anywhere

  /** The second event after the first message. */
  ghost const REPLY: Event := Event(SCHEMA_V1, "b", 1, "n", "k", 2, "a", [], KIND_CHAT_MESSAGE, "b", "", "s")

  ghost const REPLY_STEPS: seq<Step> :=
    [Receive(Talk([]), "", OPEN_POLICY, None, 1), Receive(REPLY, "", OPEN_POLICY, None, 1)]

  lemma ReplyIsAcceptable()
    ensures Acceptable(SAMPLE_ENV, OPEN_POLICY, 1, REPLY)
  {
    hide TrimSpace, ByteLength;
    SampleTexts();
    SampleKinds();
  }

  lemma ReplyStored()
    ensures var peer := Exec(SAMPLE_ENV, EMPTY, REPLY_STEPS);
      && Sound(SAMPLE_ENV, peer) && peer.heads == {"b"} && peer.events == map["a" := Talk([]), "b" := REPLY]
  {
    hide Do, Sound, Sample;
    TwoSteps(SAMPLE_ENV, EMPTY, REPLY_STEPS[0], REPLY_STEPS[1]);
    assert REPLY_STEPS == [REPLY_STEPS[0], REPLY_STEPS[1]];
    TalkComesFirst();
    ReplyIsJoined(Do(SAMPLE_ENV, EMPTY, REPLY_STEPS[0]));
    EmptyStart(SAMPLE_ENV);
    RunIsSound(SAMPLE_ENV, EMPTY, REPLY_STEPS);
  }

  lemma TalkComesFirst()
    ensures var s := Do(SAMPLE_ENV, EMPTY, Receive(Talk([]), "", OPEN_POLICY, None, 1));
      s.events == map["a" := Talk([])] && s.authorSeq == map[("n", 1) := "a"] && s.heads == {"a"}
  {
    hide Do, Acceptable, Track, Refs, MarkOf;
    SampleIsAcceptable("a", "n", [], KIND_CHAT_MESSAGE, 1);
    SampleIsStored(EMPTY, Talk([]), 1);
  }

  lemma ReplyIsJoined(s: LState)
    requires s.events == map["a" := Talk([])] && s.authorSeq == map[("n", 1) := "a"] && s.heads == {"a"}
    ensures var t := Do(SAMPLE_ENV, s, Receive(REPLY, "", OPEN_POLICY, None, 1));
      t.events == map["a" := Talk([]), "b" := REPLY] && t.heads == {"b"}
  {
    hide Do, Apply, Acceptable, Track, Refs, MarkOf;
    ReplyIsAcceptable();
    AcceptedIsInserted(SAMPLE_ENV, s, REPLY, "", OPEN_POLICY, None, 1);
    ReceiveIs(SAMPLE_ENV, s, REPLY, 1);
  }

  /**
   * A peer holds an author's first and second event. A new node that demands known previous events never gets
   * either of them from it: the second is the only head, it is refused each time, and nothing is recorded as
   * missing.
   */
  lemma StrictSyncStalls(rounds: seq<Round>)
    requires forall r | r in rounds :: FullInventory(Exec(SAMPLE_ENV, EMPTY, REPLY_STEPS), r.inv) && r.now == 1
    ensures var peer := Exec(SAMPLE_ENV, EMPTY, REPLY_STEPS);
      peer.events.Keys == {"a", "b"} && DoRounds(SAMPLE_ENV, EMPTY, peer, rounds, OPEN_POLICY) == EMPTY
  {
    hide Exec, DoRounds, FullInventory, Sound, Exact, Compatible, PlainIds, Sample;
    var peer, evs := Exec(SAMPLE_ENV, EMPTY, REPLY_STEPS), {Talk([]), REPLY};
    ReplyStored();
    EmptyStart(SAMPLE_ENV);
    SamplePlainIds();
    RepliesCompatible(evs);
    assert Joint(SAMPLE_ENV, EMPTY, peer, evs, OPEN_POLICY, {1});
    NothingFree(peer, evs);
    ClosedStalls(SAMPLE_ENV, EMPTY, peer, evs, rounds, OPEN_POLICY, {1});
  }

  lemma RepliesCompatible(evs: set<Event>)
    requires evs == {Talk([]), REPLY}
    ensures Compatible(SAMPLE_ENV, OPEN_POLICY, {1}, evs)
  {
    hide Acceptable;
    SampleIsAcceptable("a", "n", [], KIND_CHAT_MESSAGE, 1);
    ReplyIsAcceptable();
  }

  lemma NothingFree(peer: LState, evs: set<Event>)
    requires peer.heads == {"b"} && peer.events == map["a" := Talk([]), "b" := REPLY]
    ensures Closed(SAMPLE_ENV, OPEN_POLICY, evs, peer, EMPTY.events.Keys)
  {
    hide Trims, Refs, Sample;
    assert EMPTY.events.Keys == {};
  }
}
