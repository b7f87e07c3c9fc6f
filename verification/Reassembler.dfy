/** Collecting the chunks of many interleaved encodings within a cache limit. */
module Reassembler {
  import opened ErasureCode
  import opened CauchyCode
  import opened GaussJordan
  import opened LinearAlgebra
  import opened FiniteSums
  import opened Results
  import opened Sorting

  /** Chunks of one bundle received so far. */
  datatype Partial = Partial(meta: Chunk, chunks: map<int, Chunk>, bytes: int, updatedAt: int)

  type Partials = map<BundleId, Partial>

  const DEFAULT_MAX_CACHE_BYTES := 2097152
  const DEFAULT_STALE_AFTER := 600

  function Cost(c: Chunk): (r: int)
    ensures r >= CHUNK_HEADER_SIZE
  {
    |c.data| + CHUNK_HEADER_SIZE
  }

  ghost function CostAt(chunks: map<int, Chunk>): (r: int -> int) {
    i => if i in chunks then Cost(chunks[i]) else 0
  }

  ghost function TotalCost(chunks: map<int, Chunk>): (r: int) {
    Sum(chunks.Keys, CostAt(chunks))
  }

  /** What holds of every stored partial between calls, whatever chunks were fed. */
  ghost predicate PartialOk(id: BundleId, p: Partial, maxBytes: int) {
    && p.meta.bundleId == id
    && (forall i | i in p.chunks :: p.chunks[i].index == i && SameHeader(p.chunks[i], p.meta))
    && 0 < |p.chunks.Keys| < p.meta.dataShards
    && p.bytes == TotalCost(p.chunks) <= maxBytes
  }

  ghost predicate AllOk(partials: Partials, maxBytes: int) {
    forall id | id in partials :: PartialOk(id, partials[id], maxBytes)
  }

  /** The relation that `ReconstructErasurePayload` establishes between a chunk list and its result. */
  ghost predicate Rebuilds(sha: Hash, chunks: seq<Chunk>, r: Result<Bytes, ChunkError>) {
    && (r.Ok? ==> Consistent(sha, chunks) && sha(r.value) == chunks[0].payloadSha && |r.value| == chunks[0].payloadSize)
    && forall payload: Bytes, l: Layout | AllChunksOf(sha, payload, l, chunks) ::
         r == if |Indices(chunks)| >= l.n && Nonsingular(CodingMatrix(Lowest(Indices(chunks), l.n), l.n))
              then Ok(payload) else Err(Unrecoverable)
  }

  /** The partial that chunk `c` meets: the stored one, or a fresh one headed by `c`. */
  function Meets(partials: Partials, c: Chunk, now: int): (p: Partial) {
    if c.bundleId in partials then partials[c.bundleId] else Partial(c, map[], 0, now)
  }

  /** The partial after recording `c`, unless its index is already present. */
  function Recorded(p: Partial, c: Chunk, now: int): (r: Partial) {
    if c.index in p.chunks then p.(updatedAt := now)
    else p.(chunks := p.chunks[c.index := c], bytes := p.bytes + Cost(c), updatedAt := now)
  }

  /** One call of AddChunk: from `before` to `after`, answering `out`. */
  ghost predicate Step(sha: Hash, maxBytes: int, before: Partials, c: Chunk, now: int,
                       after: Partials, out: Result<Option<Bytes>, ChunkError>) {
    var p := Meets(before, c, now);
    if !SameHeader(c, p.meta) then
      after == before - {c.bundleId} && out == Err(Invalid)
    else if c.index !in p.chunks && p.bytes + Cost(c) > maxBytes then
      after == before - {c.bundleId} && out == Err(CacheLimit)
    else if |Recorded(p, c, now).chunks.Keys| < p.meta.dataShards then
      after == before[c.bundleId := Recorded(p, c, now)] && out == Ok(None)
    else
      && after == before - {c.bundleId}
      && exists list, r ::
           && ListOf(list, Recorded(p, c, now).chunks)
           && Rebuilds(sha, list, r)
           && out == if r.Ok? then Ok(Some(r.value)) else Err(r.error)
  }

  ghost predicate ListOf(list: seq<Chunk>, chunks: map<int, Chunk>) {
    && (forall c | c in list :: c.index in chunks && chunks[c.index] == c)
    && (forall i | i in chunks :: chunks[i] in list)
  }

  class ChunkReassembler {
    const sha: Hash
    const maxBytes: int
    const staleAfter: int
    var partials: Partials

    ghost predicate ValidState()
      reads this
    {
      AllOk(partials, maxBytes)
    }

    constructor (sha: Hash, maxBytes: int, staleAfter: int)
      ensures partials == map[] && ValidState()
      ensures this.sha == sha && this.maxBytes == (if maxBytes <= 0 then DEFAULT_MAX_CACHE_BYTES else maxBytes)
      ensures this.staleAfter == if staleAfter <= 0 then DEFAULT_STALE_AFTER else staleAfter
    {
      this.sha := sha;
      this.maxBytes := if maxBytes <= 0 then DEFAULT_MAX_CACHE_BYTES else maxBytes;
      this.staleAfter := if staleAfter <= 0 then DEFAULT_STALE_AFTER else staleAfter;
      partials := map[];
    }

    /** Accepts any chunk, checked or not; the cache keeps its invariant in every case. */
    method AddChunk(c: Chunk, now: int) returns (out: Result<Option<Bytes>, ChunkError>)
      requires ValidState()
      modifies this
      ensures ValidState()
      ensures Step(sha, maxBytes, old(partials), c, now, partials, out)
    {
      hide PartialOk, Rebuilds, SameHeader, Step, AllOk, ListOf;
      ghost var before := partials;
      var id: BundleId := c.bundleId;
      var p := Meets(partials, c, now);
      RemoveKeepsOk(before, maxBytes, id);
      if !SameHeader(c, p.meta) {
        StepMismatch(sha, maxBytes, before, c, now);
        partials := partials - {id};
        return Err(Invalid);
      }
      if c.index !in p.chunks && p.bytes + |c.data| + CHUNK_HEADER_SIZE > maxBytes {
        StepLimit(sha, maxBytes, before, c, now);
        partials := partials - {id};
        return Err(CacheLimit);
      }
      p := Recorded(p, c, now);
      RecordedOk(before, maxBytes, c, now);
      if |p.chunks.Keys| < p.meta.dataShards {
        StepStore(sha, maxBytes, before, c, now);
        partials := partials[id := p];
        return Ok(None);
      }
      var list, r := Rebuild(sha, p.chunks);
      StepDone(sha, maxBytes, before, c, now, list, r);
      partials := partials - {id};
      return if r.Ok? then Ok(Some(r.value)) else Err(r.error);
    }
  }

  lemma RemoveKeepsOk(partials: Partials, maxBytes: int, id: BundleId)
    requires AllOk(partials, maxBytes)
    ensures AllOk(partials - {id}, maxBytes)
  {
  }

  lemma StepMismatch(sha: Hash, maxBytes: int, before: Partials, c: Chunk, now: int)
    requires !SameHeader(c, Meets(before, c, now).meta)
    ensures Step(sha, maxBytes, before, c, now, before - {c.bundleId}, Err(Invalid))
  {
  }

  lemma StepLimit(sha: Hash, maxBytes: int, before: Partials, c: Chunk, now: int)
    requires var p := Meets(before, c, now);
      SameHeader(c, p.meta) && c.index !in p.chunks && p.bytes + Cost(c) > maxBytes
    ensures Step(sha, maxBytes, before, c, now, before - {c.bundleId}, Err(CacheLimit))
  {
  }

  ghost predicate Fits(maxBytes: int, before: Partials, c: Chunk, now: int) {
    var p := Meets(before, c, now);
    SameHeader(c, p.meta) && (c.index in p.chunks || p.bytes + Cost(c) <= maxBytes)
  }

  lemma StepStore(sha: Hash, maxBytes: int, before: Partials, c: Chunk, now: int)
    requires Fits(maxBytes, before, c, now)
    requires var p := Recorded(Meets(before, c, now), c, now); |p.chunks.Keys| < p.meta.dataShards
    ensures Step(sha, maxBytes, before, c, now, before[c.bundleId := Recorded(Meets(before, c, now), c, now)], Ok(None))
  {
  }

  lemma StepDone(sha: Hash, maxBytes: int, before: Partials, c: Chunk, now: int, list: seq<Chunk>, r: Result<Bytes,
                 ChunkError>)
    requires Fits(maxBytes, before, c, now)
    requires var p := Recorded(Meets(before, c, now), c, now);
      |p.chunks.Keys| >= p.meta.dataShards && ListOf(list, p.chunks) && Rebuilds(sha, list, r)
    ensures Step(sha, maxBytes, before, c, now, before - {c.bundleId}, if r.Ok?
        then Ok(Some(r.value)) else Err(r.error))
  {
    hide ListOf, Rebuilds, SameHeader;
  }

  /** Hands the collected chunks to the decoder, in whatever order the map yields them. */
  method Rebuild(sha: Hash, chunks: map<int, Chunk>) returns (ghost list: seq<Chunk>, r: Result<Bytes, ChunkError>)
    requires forall i | i in chunks :: chunks[i].index == i
    ensures ListOf(list, chunks) && Rebuilds(sha, list, r)
  {
    hide Nonsingular, CodingMatrix, Lowest, IsChunkOf, Consistent;
    var keys := Enumerate(chunks.Keys);
    forall k | 0 <= k < |keys| ensures keys[k] in chunks {
      assert keys[k] in Elements(keys);
    }
    var items := seq(|keys|, k requires 0 <= k < |keys| && keys[k] in chunks => chunks[keys[k]]);
    forall i | i in chunks ensures chunks[i] in items {
      assert i in Elements(keys);
      var k :| 0 <= k < |keys| && keys[k] == i;
      assert items[k] == chunks[i];
    }
    forall c | c in items ensures c.index in chunks && chunks[c.index] == c {
      var k :| 0 <= k < |items| && items[k] == c;
      assert chunks[keys[k]].index == keys[k];
    }
    list := items;
    r := ReconstructErasurePayload(sha, items);
  }

  lemma HeaderTransitive(a: Chunk, b: Chunk)
    ensures SameHeader(a, a)
    ensures SameHeader(a, b) ==> SameHeader(b, a) && a.bundleId == b.bundleId
  {
  }

  lemma TotalCostInsert(chunks: map<int, Chunk>, c: Chunk)
    requires c.index !in chunks
    ensures TotalCost(chunks[c.index := c]) == TotalCost(chunks) + Cost(c)
  {
    hide Sum;
    var more := chunks[c.index := c];
    assert more.Keys == chunks.Keys + {c.index};
    SumInsert(chunks.Keys, CostAt(more), c.index);
    SumEq(chunks.Keys, CostAt(chunks), CostAt(more));
  }

  lemma TotalCostEmpty()
    ensures TotalCost(map[]) == 0
  {
  }

  /** Recording a chunk that fits keeps the uniform header and the exact byte count. */
  lemma RecordedOk(partials: Partials, maxBytes: int, c: Chunk, now: int)
    requires AllOk(partials, maxBytes) && Fits(maxBytes, partials, c, now)
    ensures var p := Recorded(Meets(partials, c, now), c, now);
      && (forall i | i in p.chunks :: p.chunks[i].index == i)
      && (|p.chunks.Keys| < p.meta.dataShards ==> AllOk(partials[c.bundleId := p], maxBytes))
  {
    hide TotalCost, SameHeader;
    var p := Meets(partials, c, now);
    var q := Recorded(p, c, now);
    TotalCostEmpty();
    HeaderTransitive(c, p.meta);
    if c.index !in p.chunks {
      TotalCostInsert(p.chunks, c);
      assert q.chunks.Keys == p.chunks.Keys + {c.index};
    }
    if |q.chunks.Keys| < q.meta.dataShards {
      assert PartialOk(c.bundleId, q, maxBytes);
    }
  }
}
