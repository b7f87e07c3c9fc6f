/** Whole runs of the reassembler fed with interleaved, repeated chunks of several encodings. */
module ReassemblyRuns {
  import opened ErasureCode
  import opened CauchyCode
  import opened GaussJordan
  import opened LinearAlgebra
  import opened FiniteSums
  import opened Reassembler
  import opened Results

  datatype Encoding = Encoding(payload: Bytes, l: Layout)

  /** The encodings in play; their bundle identifiers differ. */
  type Catalogue = map<BundleId, Encoding>

  /** Every arriving chunk belongs to a catalogued encoding, and each encoding fits the cache. */
  ghost predicate Admissible(sha: Hash, maxBytes: int, cat: Catalogue, arrivals: seq<Chunk>) {
    && (forall id | id in cat :: cat[id].l.n * (cat[id].l.size + CHUNK_HEADER_SIZE) <= maxBytes)
    && forall c | c in arrivals :: c.bundleId in cat && IsChunkOf(sha, cat[c.bundleId].payload, cat[c.bundleId].l, c)
  }

  /**
   * The distinct indices of bundle `id` that arrived since its last completion: the set starts
   * over as soon as it reaches `n` elements.
   */
  ghost function Held(arrivals: seq<Chunk>, id: BundleId, n: nat): (r: set<int>) {
    if arrivals == [] then {}
    else
      var init, last := arrivals[..|arrivals| - 1], arrivals[|arrivals| - 1];
      var s := Held(init, id, n);
      if last.bundleId != id then s
      else if |s + {last.index}| < n then s + {last.index}
      else {}
  }

  /** The answer to chunk `c` after `arrivals`. */
  ghost function Answer(cat: Catalogue, arrivals: seq<Chunk>, c: Chunk): (r: Result<Option<Bytes>, ChunkError>)
    requires c.bundleId in cat
  {
    var e := cat[c.bundleId];
    var s := Held(arrivals, c.bundleId, e.l.n) + {c.index};
    if |s| < e.l.n then Ok(None)
    else if Nonsingular(CodingMatrix(Lowest(s, e.l.n), e.l.n)) then Ok(Some(e.payload))
    else Err(Unrecoverable)
  }

  /** The cache holds exactly the pending chunks of every encoding. */
  ghost predicate Matches(sha: Hash, cat: Catalogue, arrivals: seq<Chunk>, partials: Partials) {
    forall id | id in cat :: MatchesAt(sha, cat[id], Held(arrivals, id, cat[id].l.n), id, partials)
  }

  ghost predicate MatchesAt(sha: Hash, e: Encoding, held: set<int>, id: BundleId, partials: Partials) {
    && (id in partials <==> held != {})
    && (id in partials ==>
          && partials[id].chunks.Keys == held
          && IsChunkOf(sha, e.payload, e.l, partials[id].meta)
          && forall i | i in held :: IsChunkOf(sha, e.payload, e.l, partials[id].chunks[i]))
  }

  /** A run from the empty cache: each call is one step. */
  ghost predicate IsRun(sha: Hash, maxBytes: int, states: seq<Partials>, arrivals: seq<Chunk>, times: seq<int>,
                        outs: seq<Result<Option<Bytes>, ChunkError>>) {
    && |states| == |arrivals| + 1 && |times| == |outs| == |arrivals|
    && states[0] == map[]
    && forall t | 0 <= t < |arrivals| :: Step(sha, maxBytes, states[t], arrivals[t], times[t], states[t + 1], outs[t])
  }

  // ---------------------------------------------------------------- one step

  lemma StepKeepsOk(sha: Hash, maxBytes: int, before: Partials, c: Chunk, now: int,
                    after: Partials, out: Result<Option<Bytes>, ChunkError>)
    requires AllOk(before, maxBytes) && Step(sha, maxBytes, before, c, now, after, out)
    ensures AllOk(after, maxBytes)
  {
    hide AllOk, SameHeader, Rebuilds, ListOf;
    RemoveKeepsOk(before, maxBytes, c.bundleId);
    if Fits(maxBytes, before, c, now) {
      RecordedOk(before, maxBytes, c, now);
    }
  }

  /** Chunks of one encoding have the same header and the same cost. */
  lemma SameEncoding(sha: Hash, e: Encoding, c: Chunk, d: Chunk)
    requires IsChunkOf(sha, e.payload, e.l, c) && IsChunkOf(sha, e.payload, e.l, d)
    ensures SameHeader(c, d) && Cost(c) == e.l.size + CHUNK_HEADER_SIZE && c.dataShards == e.l.n && e.l.n >= 1
    ensures 0 <= c.index < e.l.n + e.l.p
  {
  }

  lemma OneMoreFits(a: nat, b: nat, k: nat)
    requires a < b
    ensures a * k + k <= b * k
  {
    assert b * k == a * k + k + (b - a - 1) * k;
  }

  lemma PendingBytes(sha: Hash, maxBytes: int, e: Encoding, id: BundleId, p: Partial)
    requires PartialOk(id, p, maxBytes) && |p.chunks.Keys| < e.l.n
    requires e.l.n * (e.l.size + CHUNK_HEADER_SIZE) <= maxBytes
    requires forall i | i in p.chunks :: IsChunkOf(sha, e.payload, e.l, p.chunks[i])
    ensures p.bytes + e.l.size + CHUNK_HEADER_SIZE <= maxBytes
  {
    hide IsChunkOf, Sum, SameHeader;
    var k := e.l.size + CHUNK_HEADER_SIZE;
    forall i | i in p.chunks ensures CostAt(p.chunks)(i) == k {
      SameEncoding(sha, e, p.chunks[i], p.chunks[i]);
    }
    SumConstant(p.chunks.Keys, CostAt(p.chunks), k);
    OneMoreFits(|p.chunks.Keys|, e.l.n, k);
  }

  lemma PendingFits(sha: Hash, maxBytes: int, e: Encoding, held: set<int>, before: Partials, c: Chunk, now: int)
    requires AllOk(before, maxBytes)
    requires e.l.n * (e.l.size + CHUNK_HEADER_SIZE) <= maxBytes
    requires IsChunkOf(sha, e.payload, e.l, c) && MatchesAt(sha, e, held, c.bundleId, before) && |held| < e.l.n
    ensures Fits(maxBytes, before, c, now)
    ensures Meets(before, c, now).chunks.Keys == held && Meets(before, c, now).meta.dataShards == e.l.n
  {
    hide IsChunkOf, SameHeader, PartialOk;
    var p := Meets(before, c, now);
    SameEncoding(sha, e, c, p.meta);
    SameEncoding(sha, e, p.meta, p.meta);
    if c.bundleId in before {
      PendingBytes(sha, maxBytes, e, c.bundleId, p);
    } else {
      OneMoreFits(0, e.l.n, e.l.size + CHUNK_HEADER_SIZE);
    }
  }

  lemma RecordedMatches(sha: Hash, maxBytes: int, e: Encoding, held: set<int>, before: Partials, c: Chunk, now: int)
    requires AllOk(before, maxBytes)
    requires IsChunkOf(sha, e.payload, e.l, c) && MatchesAt(sha, e, held, c.bundleId, before)
    ensures var q := Recorded(Meets(before, c, now), c, now);
      && q.chunks.Keys == held + {c.index}
      && IsChunkOf(sha, e.payload, e.l, q.meta)
      && forall i | i in q.chunks :: q.chunks[i].index == i && IsChunkOf(sha, e.payload, e.l, q.chunks[i])
  {
    hide IsChunkOf, SameHeader, TotalCost;
    var p := Meets(before, c, now);
    assert c.bundleId in before ==> PartialOk(c.bundleId, p, maxBytes);
  }

  /** The step taken for a catalogued chunk: it is stored, or it completes its bundle. */
  lemma StepOutcome(sha: Hash, maxBytes: int, e: Encoding, held: set<int>, before: Partials, c: Chunk, now: int,
                    after: Partials, out: Result<Option<Bytes>, ChunkError>)
    requires AllOk(before, maxBytes)
    requires e.l.n * (e.l.size + CHUNK_HEADER_SIZE) <= maxBytes
    requires IsChunkOf(sha, e.payload, e.l, c) && MatchesAt(sha, e, held, c.bundleId, before) && |held| < e.l.n
    requires Step(sha, maxBytes, before, c, now, after, out)
    ensures var s := held + {c.index};
      if |s| < e.l.n then
        after == before[c.bundleId := Recorded(Meets(before, c, now), c, now)] && out == Ok(None)
      else
        && after == before - {c.bundleId}
        && out == if Nonsingular(CodingMatrix(Lowest(s, e.l.n), e.l.n)) then Ok(Some(e.payload)) else Err(Unrecoverable)
  {
    hide IsChunkOf, SameHeader, AllOk, MatchesAt, Rebuilds, ListOf, Lowest, Nonsingular, CodingMatrix;
    PendingFits(sha, maxBytes, e, held, before, c, now);
    RecordedMatches(sha, maxBytes, e, held, before, c, now);
    var q, s := Recorded(Meets(before, c, now), c, now), held + {c.index};
    if |s| >= e.l.n {
      var list, r :| ListOf(list, q.chunks) && Rebuilds(sha, list, r)
                     && out == if r.Ok? then Ok(Some(r.value)) else Err(r.error);
      Completed(sha, e, q.chunks, s, list, r);
    }
  }

  lemma HeldStep(arrivals: seq<Chunk>, c: Chunk, id: BundleId, n: nat)
    ensures var s := Held(arrivals, id, n);
      Held(arrivals + [c], id, n) ==
        if c.bundleId != id then s else if |s + {c.index}| < n then s + {c.index} else {}
  {
    assert (arrivals + [c])[..|arrivals|] == arrivals;
  }

  /** The bundle of the arriving chunk matches again. */
  lemma OwnBundleMatches(sha: Hash, maxBytes: int, e: Encoding, held: set<int>, before: Partials, c: Chunk, now: int,
                         after: Partials, out: Result<Option<Bytes>, ChunkError>)
    requires AllOk(before, maxBytes)
    requires e.l.n * (e.l.size + CHUNK_HEADER_SIZE) <= maxBytes
    requires IsChunkOf(sha, e.payload, e.l, c) && MatchesAt(sha, e, held, c.bundleId, before) && |held| < e.l.n
    requires Step(sha, maxBytes, before, c, now, after, out)
    ensures MatchesAt(sha, e, if |held + {c.index}| < e.l.n then held + {c.index} else {}, c.bundleId, after)
  {
    hide IsChunkOf, AllOk, Step, Lowest, Nonsingular, CodingMatrix, Recorded;
    StepOutcome(sha, maxBytes, e, held, before, c, now, after, out);
    RecordedMatches(sha, maxBytes, e, held, before, c, now);
  }

  /** Other bundles are left alone. */
  lemma StepFrame(sha: Hash, maxBytes: int, before: Partials, c: Chunk, now: int,
                  after: Partials, out: Result<Option<Bytes>, ChunkError>, id: BundleId)
    requires Step(sha, maxBytes, before, c, now, after, out) && id != c.bundleId
    ensures id in after <==> id in before
    ensures id in after ==> after[id] == before[id]
  {
    hide SameHeader, Rebuilds, ListOf;
  }

  /** One arrival is answered as specified, and the cache keeps matching. */
  lemma StepMatches(sha: Hash, maxBytes: int, cat: Catalogue, arrivals: seq<Chunk>, before: Partials, c: Chunk,
                    now: int, after: Partials, out: Result<Option<Bytes>, ChunkError>)
    requires AllOk(before, maxBytes) && Matches(sha, cat, arrivals, before)
    requires Admissible(sha, maxBytes, cat, arrivals + [c])
    requires Step(sha, maxBytes, before, c, now, after, out)
    ensures c.bundleId in cat && out == Answer(cat, arrivals, c)
    ensures Matches(sha, cat, arrivals + [c], after)
  {
    hide IsChunkOf, AllOk, Step, Lowest, Nonsingular, CodingMatrix, Held, Recorded, Meets;
    assert c in arrivals + [c];
    var id, e := c.bundleId, cat[c.bundleId];
    var held := Held(arrivals, id, e.l.n);
    HeldSmall(arrivals, id, e.l.n, sha, e, c);
    StepOutcome(sha, maxBytes, e, held, before, c, now, after, out);
    OwnBundleMatches(sha, maxBytes, e, held, before, c, now, after, out);
    forall other | other in cat
      ensures MatchesAt(sha, cat[other], Held(arrivals + [c], other, cat[other].l.n), other, after)
    {
      HeldStep(arrivals, c, other, cat[other].l.n);
      if other != id {
        StepFrame(sha, maxBytes, before, c, now, after, out, other);
        assert MatchesAt(sha, cat[other], Held(arrivals, other, cat[other].l.n), other, before);
      }
    }
  }

  lemma {:induction false} HeldSmall(arrivals: seq<Chunk>, id: BundleId, n: nat, sha: Hash, e: Encoding, c: Chunk)
    requires IsChunkOf(sha, e.payload, e.l, c) && n == e.l.n
    ensures |Held(arrivals, id, n)| < n
  {
    SameEncoding(sha, e, c, c);
    if arrivals != [] {
      HeldSmall(arrivals[..|arrivals| - 1], id, n, sha, e, c);
    }
  }

  lemma Completed(sha: Hash, e: Encoding, chunks: map<int, Chunk>, s: set<int>, list: seq<Chunk>, r: Result<Bytes,
                  ChunkError>)
    requires chunks.Keys == s && s != {} && |s| >= e.l.n
    requires forall i | i in chunks :: chunks[i].index == i && IsChunkOf(sha, e.payload, e.l, chunks[i])
    requires ListOf(list, chunks) && Rebuilds(sha, list, r)
    ensures r == if Nonsingular(CodingMatrix(Lowest(s, e.l.n), e.l.n)) then Ok(e.payload) else Err(Unrecoverable)
  {
    hide IsChunkOf, Lowest, Nonsingular, CodingMatrix;
    assert Indices(list) == s by {
      forall i | i in s ensures i in Indices(list) {
        assert chunks[i] in list && chunks[i].index == i;
      }
    }
    var i :| i in s;
    assert chunks[i] in list;
    assert AllChunksOf(sha, e.payload, e.l, list);
  }

  // ---------------------------------------------------------------- whole runs

  lemma {:induction false} RunMatches(sha: Hash, maxBytes: int, cat: Catalogue, states: seq<Partials>,
                                      arrivals: seq<Chunk>,
                                      times: seq<int>, outs: seq<Result<Option<Bytes>, ChunkError>>, t: nat)
    requires IsRun(sha, maxBytes, states, arrivals, times, outs) && t <= |arrivals|
    requires Admissible(sha, maxBytes, cat, arrivals)
    ensures AllOk(states[t], maxBytes) && Matches(sha, cat, arrivals[..t], states[t])
  {
    hide Step, AllOk, Matches, IsChunkOf;
    if t == 0 {
      EmptyMatches(sha, maxBytes, cat);
    } else {
      RunMatches(sha, maxBytes, cat, states, arrivals, times, outs, t - 1);
      assert arrivals[..t] == arrivals[..t - 1] + [arrivals[t - 1]];
      assert Step(sha, maxBytes, states[t - 1], arrivals[t - 1], times[t - 1], states[t], outs[t - 1]);
      StepKeepsOk(sha, maxBytes, states[t - 1], arrivals[t - 1], times[t - 1], states[t], outs[t - 1]);
      StepMatches(sha, maxBytes, cat, arrivals[..t - 1], states[t - 1], arrivals[t - 1], times[t - 1], states[t],
          outs[t - 1]);
    }
  }

  lemma EmptyMatches(sha: Hash, maxBytes: int, cat: Catalogue)
    ensures AllOk(map[], maxBytes) && Matches(sha, cat, [], map[])
  {
  }

  /**
   * In every run over chunks of catalogued encodings, call `t` returns the payload exactly when it
   * brings the n-th distinct index since that bundle last completed, provided those rows are invertible.
   */
  lemma RunDelivers(sha: Hash, maxBytes: int, cat: Catalogue, states: seq<Partials>, arrivals: seq<Chunk>,
                    times: seq<int>, outs: seq<Result<Option<Bytes>, ChunkError>>, t: nat)
    requires IsRun(sha, maxBytes, states, arrivals, times, outs) && t < |arrivals|
    requires Admissible(sha, maxBytes, cat, arrivals)
    ensures arrivals[t].bundleId in cat
    ensures outs[t] == Answer(cat, arrivals[..t], arrivals[t])
  {
    hide Step, AllOk, Matches, IsChunkOf;
    RunMatches(sha, maxBytes, cat, states, arrivals, times, outs, t);
    assert arrivals[..t + 1] == arrivals[..t] + [arrivals[t]];
    assert Step(sha, maxBytes, states[t], arrivals[t], times[t], states[t + 1], outs[t]);
    StepMatches(sha, maxBytes, cat, arrivals[..t], states[t], arrivals[t], times[t], states[t + 1], outs[t]);
  }

  /** In the safe range of shard counts the answer is never an error. */
  lemma {:induction false} SafeRangeDelivers(sha: Hash, maxBytes: int, cat: Catalogue, arrivals: seq<Chunk>, c: Chunk)
    requires Admissible(sha, maxBytes, cat, arrivals + [c])
    requires forall id | id in cat :: cat[id].l.n <= 129 && cat[id].l.p <= 127
    ensures c in arrivals + [c] && c.bundleId in cat
    ensures Answer(cat, arrivals, c) ==
      if |Held(arrivals, c.bundleId, cat[c.bundleId].l.n) + {c.index}| < cat[c.bundleId].l.n then Ok(None)
      else Ok(Some(cat[c.bundleId].payload))
  {
    hide IsChunkOf, Lowest, Nonsingular, CodingMatrix;
    assert c in arrivals + [c];
    var id, e := c.bundleId, cat[c.bundleId];
    var s := Held(arrivals, id, e.l.n) + {c.index};
    SameEncoding(sha, e, c, c);
    HeldInRange(sha, maxBytes, cat, arrivals, id, c);
    if |s| >= e.l.n {
      EnoughChunksDecode(s, e.l.n, e.l.p);
    }
  }

  lemma {:induction false} HeldInRange(sha: Hash, maxBytes: int, cat: Catalogue, arrivals: seq<Chunk>, id: BundleId,
                                       c: Chunk)
    requires Admissible(sha, maxBytes, cat, arrivals + [c]) && id in cat
    ensures forall i | i in Held(arrivals, id, cat[id].l.n) :: 0 <= i < cat[id].l.n + cat[id].l.p
  {
    hide IsChunkOf;
    if arrivals != [] {
      var init, last := arrivals[..|arrivals| - 1], arrivals[|arrivals| - 1];
      assert forall d | d in init + [c] :: d in arrivals + [c];
      HeldInRange(sha, maxBytes, cat, init, id, c);
      assert last in arrivals + [c];
      if last.bundleId == id {
        SameEncoding(sha, cat[id], last, last);
      }
    }
  }
}
