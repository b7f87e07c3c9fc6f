/** Splitting a payload into self-describing chunks and rebuilding it from any sufficient subset. */
module ErasureCode {
  import opened Gf256
  import opened LinearAlgebra
  import opened CauchyCode
  import opened GaussJordan
  import opened Results
  import opened Sorting

  type Bytes = seq<bv8>
  type Digest = d: Bytes | |d| == 32 witness seq(32, i => 0)
  type BundleId = d: Bytes | |d| == 16 witness seq(16, i => 0)

  /** SHA-256, as an arbitrary function. */
  type Hash = Bytes -> Digest

  const CHUNK_HEADER_SIZE := 98
  const MAX_CHUNK_DATA_SIZE := 65536
  const MAX_BUNDLE_BYTES := 2097152

  datatype Chunk = Chunk(
    bundleId: BundleId, index: int, dataShards: int, parityShards: int, payloadSize: int, shardSize: int,
    payloadSha: Digest, chunkSha: Digest, data: Bytes)

  datatype ChunkOptions = ChunkOptions(dataShards: int, parityShards: int, shardSize: int)

  /** Shard counts and shard size of one encoding. */
  datatype Layout = Layout(n: nat, p: nat, size: nat)

  // ---------------------------------------------------------------- headers

  function U16(v: nat): (r: Bytes) {
    [ByteOf(v / 256), ByteOf(v % 256)]
  }

  function U32(v: nat): (r: Bytes) {
    U16(v / 65536) + U16(v % 65536)
  }

  /** The header fields up to the payload digest, followed by `rest`. */
  function HeaderThen(c: Chunk, rest: Bytes): (r: Bytes)
    requires c.index >= 0 && c.dataShards >= 0 && c.parityShards >= 0 && c.payloadSize >= 0 && c.shardSize >= 0
  {
    [0x53, 0x4e, 0x43, 0x45, 1, 0] + (c.bundleId + (U16(c.index) + (U16(c.dataShards) + (U16(c.parityShards) +
    (U32(c.payloadSize) + (U16(c.shardSize) + (c.payloadSha + rest)))))))
  }

  predicate Valid(c: Chunk) {
    && c.dataShards > 0 && c.parityShards > 0 && c.dataShards + c.parityShards <= MAX_SHARD_COUNT
    && 0 <= c.index < c.dataShards + c.parityShards
    && 0 < c.payloadSize <= MAX_BUNDLE_BYTES
    && 0 < c.shardSize <= MAX_CHUNK_DATA_SIZE
    && |c.data| == c.shardSize
    && c.dataShards * c.shardSize >= c.payloadSize
  }

  function ChecksumOf(sha: Hash, c: Chunk): (r: Digest)
    requires Valid(c)
  {
    sha(HeaderThen(c, c.data))
  }

  predicate SameHeader(c: Chunk, d: Chunk) {
    && c.bundleId == d.bundleId && c.dataShards == d.dataShards && c.parityShards == d.parityShards
    && c.payloadSize == d.payloadSize && c.shardSize == d.shardSize && c.payloadSha == d.payloadSha
  }

  // ---------------------------------------------------------------- what an encoding is

  function DataShard(payload: Bytes, size: nat, i: int): (r: Bytes) {
    seq(size, b => At(payload, i * size + b))
  }

  function DataMatrix(payload: Bytes, l: Layout): (r: Matrix) {
    seq(l.n, i => DataShard(payload, l.size, i))
  }

  /** The bytes of shard `i`: its coding row applied to the data shards. */
  function Shard(payload: Bytes, l: Layout, i: int): (r: Bytes) {
    CombineRow(CodingRow(i, l.n), DataMatrix(payload, l), l.n, l.size)
  }

  ghost predicate LayoutFits(len: nat, l: Layout) {
    && 1 <= l.n && 1 <= l.p && l.n + l.p <= MAX_SHARD_COUNT
    && 1 <= l.size <= MAX_CHUNK_DATA_SIZE
    && 0 < len <= MAX_BUNDLE_BYTES && l.n * l.size >= len
  }

  /** `c` is a chunk of the encoding of `payload` with layout `l`. */
  ghost predicate IsChunkOf(sha: Hash, payload: Bytes, l: Layout, c: Chunk) {
    && LayoutFits(|payload|, l)
    && 0 <= c.index < l.n + l.p
    && c.dataShards == l.n && c.parityShards == l.p && c.shardSize == l.size && c.payloadSize == |payload|
    && c.payloadSha == sha(payload) && c.bundleId == sha(payload)[..16]
    && c.data == Shard(payload, l, c.index)
    && Valid(c) && c.chunkSha == ChecksumOf(sha, c)
  }

  lemma DataShardIsShard(payload: Bytes, l: Layout, i: int)
    requires 0 <= i < l.n
    ensures Shard(payload, l, i) == DataShard(payload, l.size, i)
  {
    hide Add, Mul, Dot;
    var d := DataMatrix(payload, l);
    forall b | 0 <= b < l.size
      ensures Shard(payload, l, i)[b] == DataShard(payload, l.size, i)[b]
    {
      UnitRow(i, l.n, Column(d, l.n, b));
    }
  }

  // ---------------------------------------------------------------- encoding

  /** `r` is the least number of pieces of size `b` that hold `a`. */
  ghost predicate RoundedUp(a: nat, b: nat, r: nat) {
    b * r >= a && (r > 0 ==> b * (r - 1) < a)
  }

  /**
   * The layout that the caller asks for: positive options as they are, otherwise shards of 768 bytes, as many as
   * the payload needs, and a third as many parity shards. Shards grow only as far as the payload requires.
   */
  ghost predicate Asked(len: nat, opt: ChunkOptions, l: Layout) {
    var size := if opt.shardSize > 0 then opt.shardSize else 768;
    && (if opt.dataShards > 0 then l.n == opt.dataShards else RoundedUp(len, size, l.n))
    && (if opt.parityShards > 0 then l.p == opt.parityShards else RoundedUp(l.n, 3, l.p))
    && l.size >= size && l.n * l.size >= len && (l.size > size ==> l.n * (l.size - 1) < len)
  }

  /** The shard layout for a payload length and the caller's options: the one asked for, if it is within the limits. */
  function PlanLayout(len: nat, opt: ChunkOptions): (r: Result<Layout, ChunkError>)
    ensures r.Ok? ==> LayoutFits(len, r.value) && Asked(len, opt, r.value)
    ensures r.Err? ==> r.error == Invalid && forall l | LayoutFits(len, l) :: !Asked(len, opt, l)
  {
    AskedIsComputed(len, opt);
    if len == 0 || len > MAX_BUNDLE_BYTES then Err(Invalid) else
    var size := AskedSize(opt);
    if size > MAX_CHUNK_DATA_SIZE then Err(Invalid) else
    var l := Computed(len, opt);
    if l.n > MAX_SHARD_COUNT then Err(Invalid) else
    if l.n + l.p > MAX_SHARD_COUNT then Err(Invalid) else
    if l.size > MAX_CHUNK_DATA_SIZE then Err(Invalid) else
    ComputedIsAsked(len, opt);
    Ok(l)
  }

  function AskedSize(opt: ChunkOptions): (r: nat) {
    if opt.shardSize <= 0 then 768 else opt.shardSize
  }

  /** Defaults replace non-positive options, and shards grow until the payload fits. */
  function Computed(len: nat, opt: ChunkOptions): (l: Layout)
    requires len > 0
    ensures l.n > 0 && l.p > 0
  {
    var size := AskedSize(opt);
    var n := if opt.dataShards <= 0 then (len + size - 1) / size else opt.dataShards;
    CountIsPositive(len, size);
    var p := if opt.parityShards <= 0 then (n + 2) / 3 else opt.parityShards;
    var min := (len + n - 1) / n;
    Layout(n, p, if size < min then min else size)
  }

  lemma RoundUpCovers(len: nat, n: int, size: int)
    requires n > 0 && size >= (len + n - 1) / n
    ensures n * size >= len
  {
    var q := (len + n - 1) / n;
    assert n * q >= len;
    assert n * size >= n * q;
  }

  lemma RoundUpIs(a: nat, b: nat)
    requires b > 0
    ensures RoundedUp(a, b, (a + b - 1) / b)
  {
    var r := (a + b - 1) / b;
    assert b * r + (a + b - 1) % b == a + b - 1;
    assert b * (r - 1) == b * r - b;
  }

  lemma Monotone(b: nat, x: nat, y: nat)
    requires x <= y
    ensures b * x <= b * y
  {
  }

  lemma RoundUpUnique(a: nat, b: nat, r: nat)
    requires b > 0 && RoundedUp(a, b, r)
    ensures r == (a + b - 1) / b
  {
    RoundUpIs(a, b);
    RoundUpsAgree(a, b, r, (a + b - 1) / b);
    RoundUpsAgree(a, b, (a + b - 1) / b, r);
  }

  lemma RoundUpsAgree(a: nat, b: nat, q: nat, r: nat)
    requires RoundedUp(a, b, q) && RoundedUp(a, b, r)
    ensures q <= r
  {
    if q > r {
      Monotone(b, r, q - 1);
      assert false;
    }
  }

  lemma CountIsPositive(len: nat, size: nat)
    requires len > 0 && size > 0
    ensures (len + size - 1) / size > 0
  {
    RoundUpIs(len, size);
  }

  lemma ComputedIsAsked(len: nat, opt: ChunkOptions)
    requires len > 0
    ensures Asked(len, opt, Computed(len, opt))
  {
    hide RoundedUp;
    var size := AskedSize(opt);
    var l := Computed(len, opt);
    RoundUpIs(len, size);
    RoundUpIs(l.n, 3);
    CountIsPositive(len, size);
    LeastSize(len, l.n, size);
  }

  /** The size computed is the least one from `size` on that holds the payload. */
  lemma LeastSize(len: nat, n: nat, size: nat)
    requires n > 0
    ensures var min := (len + n - 1) / n;
      var r := if size < min then min else size;
      n * r >= len && (r > size ==> n * (r - 1) < len)
  {
    RoundUpIs(len, n);
    RoundUpCovers(len, n, if size < (len + n - 1) / n then (len + n - 1) / n else size);
  }

  /** No other layout is asked for. */
  lemma AskedIsComputed(len: nat, opt: ChunkOptions)
    ensures len > 0 ==> forall l | LayoutFits(len, l) && Asked(len, opt, l) :: l == Computed(len, opt)
  {
    hide RoundedUp;
    forall l | LayoutFits(len, l) && Asked(len, opt, l) ensures l == Computed(len, opt) {
      var size := if opt.shardSize > 0 then opt.shardSize else 768;
      if opt.dataShards <= 0 {
        RoundUpUnique(len, size, l.n);
      }
      if opt.parityShards <= 0 {
        RoundUpUnique(l.n, 3, l.p);
      }
      SizeIsLeast(len, l.n, size, l.size);
    }
  }

  lemma SizeIsLeast(len: nat, n: nat, size: nat, r: nat)
    requires n > 0 && r >= size && n * r >= len && (r > size ==> n * (r - 1) < len)
    ensures var min := (len + n - 1) / n; r == if size < min then min else size
  {
    var min := (len + n - 1) / n;
    RoundUpIs(len, n);
    if r > size {
      RoundUpUnique(len, n, r);
    } else {
      EnoughIsRoundedUp(len, n, r);
    }
  }

  /** What holds `a` is at least the least number that does. */
  lemma EnoughIsRoundedUp(a: nat, b: nat, r: nat)
    requires b > 0 && b * r >= a
    ensures r >= (a + b - 1) / b
  {
    RoundUpIs(a, b);
    var q := (a + b - 1) / b;
    if r < q {
      Monotone(b, r, q - 1);
      assert false;
    }
  }

  lemma OneLayout(len: nat, opt: ChunkOptions, l: Layout)
    requires LayoutFits(len, l) && Asked(len, opt, l)
    ensures forall m | LayoutFits(len, m) && Asked(len, opt, m) :: m == l
  {
    hide Asked, Computed;
    AskedIsComputed(len, opt);
  }

  /** acc[b] ^= coef * shard[b] for every b, skipped when the coefficient is zero. */
  method AddScaled(acc0: Bytes, coef: bv8, shard: Bytes) returns (acc: Bytes)
    requires |acc0| <= |shard|
    ensures |acc| == |acc0|
    ensures forall b | 0 <= b < |acc| :: acc[b] == Add(acc0[b], Mul(coef, shard[b]))
  {
    hide Add, Mul;
    acc := acc0;
    if coef == 0 {
      forall b | 0 <= b < |acc| ensures acc[b] == Add(acc0[b], Mul(coef, shard[b])) {
        MulZeroLeft(shard[b]); AddZero(acc0[b]);
      }
      return;
    }
    for b := 0 to |acc0|
      invariant |acc| == |acc0|
      invariant forall k | 0 <= k < b :: acc[k] == Add(acc0[k], Mul(coef, shard[k]))
      invariant forall k | b <= k < |acc| :: acc[k] == acc0[k]
    {
      var x := GfMul(coef, shard[b]);
      acc := acc[b := Add(acc[b], x)];
    }
  }

  /** The row combination of `n` shards of `size` bytes, accumulated shard by shard. */
  method CombineShards(coefs: Vec, shards: Matrix, n: nat, size: nat) returns (acc: Bytes)
    requires |coefs| == n == |shards| && forall k | 0 <= k < n :: |shards[k]| == size
    ensures acc == CombineRow(coefs, shards, n, size)
  {
    hide Add, Mul;
    acc := seq(size, b => 0 as bv8);
    for k := 0 to n
      invariant |acc| == size
      invariant forall b | 0 <= b < size :: acc[b] == Dot(coefs, Column(shards, n, b), k)
    {
      acc := AddScaled(acc, coefs[k], shards[k]);
    }
  }

  /** `size` bytes of the payload from `start`, padded with zeros. */
  method CopyShard(payload: Bytes, start: nat, size: nat) returns (shard: Bytes)
    ensures |shard| == size
    ensures forall b | 0 <= b < size :: shard[b] == At(payload, start + b)
  {
    shard := seq(size, b => 0 as bv8);
    if start < |payload| {
      var end := if start + size > |payload| then |payload| else start + size;
      shard := payload[start..end] + shard[end - start..];
    }
  }

  method SplitPayload(payload: Bytes, l: Layout) returns (data: Matrix)
    ensures data == DataMatrix(payload, l)
  {
    data := [];
    for i := 0 to l.n
      invariant |data| == i
      invariant forall k | 0 <= k < i :: data[k] == DataShard(payload, l.size, k)
    {
      var start := i * l.size;
      var shard := CopyShard(payload, start, l.size);
      assert shard == DataShard(payload, l.size, i);
      data := data + [shard];
    }
  }

  method ParityShards(ghost payload: Bytes, data: Matrix, l: Layout) returns (parity: Matrix)
    requires data == DataMatrix(payload, l)
    ensures |parity| == l.p && forall k | 0 <= k < l.p :: parity[k] == Shard(payload, l, l.n + k)
  {
    hide Dot, CodingRow;
    parity := [];
    for p := 0 to l.p
      invariant |parity| == p
      invariant forall k | 0 <= k < p :: parity[k] == Shard(payload, l, l.n + k)
    {
      var row := BuildCodingRow(l.n + p, l.n);
      RowLength(l.n + p, l.n);
      var shard := CombineShards(row, data, l.n, l.size);
      parity := parity + [shard];
    }
  }

  lemma RowLength(i: int, n: nat)
    ensures |CodingRow(i, n)| == n
  {
  }

  /** The chunk that carries shard `i`. */
  function MakeChunk(sha: Hash, payload: Bytes, l: Layout, i: int, shard: Bytes): (c: Chunk)
    requires LayoutFits(|payload|, l) && 0 <= i < l.n + l.p && |shard| == l.size
    ensures shard == Shard(payload, l, i) ==> IsChunkOf(sha, payload, l, c)
    ensures c.index == i
  {
    var sum := sha(payload);
    var c := Chunk(sum[..16], i, l.n, l.p, |payload|, l.size, sum, sum, shard);
    c.(chunkSha := ChecksumOf(sha, c))
  }

  /**
   * Every accepted payload becomes n + p chunks of the layout asked for, chunk i carrying shard i; a request is
   * refused exactly when that layout exceeds a limit.
   */
  method EncodeErasureChunks(sha: Hash, payload: Bytes, opt: ChunkOptions) returns (r: Result<seq<Chunk>, ChunkError>)
    ensures r.Ok? <==> exists l :: LayoutFits(|payload|, l) && Asked(|payload|, opt, l)
    ensures r.Err? ==> r.error == Invalid
    ensures forall l | LayoutFits(|payload|, l) && Asked(|payload|, opt, l) ::
      && r.Ok? && |r.value| == l.n + l.p
      && forall i | 0 <= i < |r.value| :: IsChunkOf(sha, payload, l, r.value[i]) && r.value[i].index == i
  {
    hide Shard, IsChunkOf, Asked, LayoutFits, PlanLayout, Computed;
    var plan := PlanLayout(|payload|, opt);
    if plan.Err? {
      return Err(Invalid);
    }
    var l := plan.value;
    OneLayout(|payload|, opt, l);
    var data := SplitPayload(payload, l);
    var parity := ParityShards(payload, data, l);
    var out: seq<Chunk> := [];
    for i := 0 to l.n + l.p
      invariant |out| == i
      invariant forall k | 0 <= k < i :: IsChunkOf(sha, payload, l, out[k]) && out[k].index == k
    {
      var shard := if i < l.n then data[i] else parity[i - l.n];
      if i < l.n {
        DataShardIsShard(payload, l, i);
      }
      ShardLength(payload, l, i);
      out := out + [MakeChunk(sha, payload, l, i, shard)];
    }
    return Ok(out);
  }

  lemma ShardLength(payload: Bytes, l: Layout, i: int)
    ensures |Shard(payload, l, i)| == l.size
  {
  }

  // ---------------------------------------------------------------- reconstruction

  ghost function Indices(chunks: seq<Chunk>): (r: set<int>) {
    set c | c in chunks :: c.index
  }

  function IntLess(a: int, b: int): (r: bool) {
    a < b
  }

  /** The `n` smallest chunk indices, in increasing order. */
  ghost function Lowest(s: set<int>, n: nat): (r: seq<int>)
    requires n <= |s|
  {
    SortedSet(s, IntLess)[..n]
  }

  /** All chunks describe the same encoding, are valid and carry a correct checksum. */
  ghost predicate Consistent(sha: Hash, chunks: seq<Chunk>) {
    chunks != [] && forall c | c in chunks :: Valid(c) && SameHeader(c, chunks[0]) && ChecksumOf(sha, c) == c.chunkSha
  }

  ghost predicate AllChunksOf(sha: Hash, payload: Bytes, l: Layout, chunks: seq<Chunk>) {
    chunks != [] && forall c | c in chunks :: IsChunkOf(sha, payload, l, c)
  }

  lemma ChunkOfIsConsistent(sha: Hash, payload: Bytes, l: Layout, c: Chunk, d: Chunk)
    requires IsChunkOf(sha, payload, l, c) && IsChunkOf(sha, payload, l, d)
    ensures Valid(c) && SameHeader(c, d) && ChecksumOf(sha, c) == c.chunkSha
  {
    hide HeaderThen, Shard;
  }

  lemma ChunksOfAreConsistent(sha: Hash, payload: Bytes, l: Layout, chunks: seq<Chunk>)
    requires AllChunksOf(sha, payload, l, chunks)
    ensures Consistent(sha, chunks)
  {
    hide Valid, SameHeader, ChecksumOf, IsChunkOf;
    assert chunks[0] in chunks;
    forall c | c in chunks ensures Valid(c) && SameHeader(c, chunks[0]) && ChecksumOf(sha, c) == c.chunkSha {
      ChunkOfIsConsistent(sha, payload, l, c, chunks[0]);
    }
  }

  /** Decoding one byte position: inverse times coding matrix times data column is the data column. */
  lemma DecodeColumn(inv: Matrix, sel: seq<int>, l: Layout, payload: Bytes, shards: Matrix, i: int, b: int)
    requires |sel| == l.n == |shards| && 0 <= i < l.n && 0 <= b < l.size
    requires IsLeftInverse(inv, CodingMatrix(sel, l.n), l.n)
    requires forall k | 0 <= k < l.n :: shards[k] == Shard(payload, l, sel[k])
    ensures Combine(inv[i], shards, l.n, b) == At(payload, i * l.size + b)
  {
    hide Add, Mul, Dot, CodingRow;
    var n, m, d := l.n, CodingMatrix(sel, l.n), DataMatrix(payload, l);
    var col, scol := Column(d, n, b), Column(shards, n, b);
    CombineAssoc(inv[i], m, col, scol, n, n);
    var row := CombineRow(inv[i], m, n, n);
    forall j | 0 <= j < n ensures At(row, j) == Delta(i, j) {
      assert Combine(inv[i], m, n, j) == Delta(i, j);
    }
    DotSingle(row, col, n, i);
    MulOneLeft(col[i]);
    assert col[i] == d[i][b];
  }

  /** The distinct chunks by index; a later chunk replaces an earlier one with the same index. */
  method CollectByIndex(sha: Hash, chunks: seq<Chunk>) returns (r: Result<map<int, Chunk>, ChunkError>)
    requires chunks != [] && Valid(chunks[0])
    ensures r.Ok? <==> Consistent(sha, chunks)
    ensures r.Err? ==> r.error == Invalid || r.error == Checksum
    ensures r.Ok? ==> r.value.Keys == Indices(chunks)
    ensures r.Ok? ==> forall i | i in r.value :: r.value[i] in chunks && r.value[i].index == i
  {
    hide ChecksumOf;
    var byIndex: map<int, Chunk> := map[];
    for k := 0 to |chunks|
      invariant forall c | c in chunks[..k] :: Valid(c) && SameHeader(c, chunks[0]) && ChecksumOf(sha, c) == c.chunkSha
      invariant byIndex.Keys == Indices(chunks[..k])
      invariant forall i | i in byIndex :: byIndex[i] in chunks && byIndex[i].index == i
    {
      var c := chunks[k];
      assert c in chunks;
      if !Valid(c) || !SameHeader(c, chunks[0]) {
        return Err(Invalid);
      }
      if ChecksumOf(sha, c) != c.chunkSha {
        return Err(Checksum);
      }
      assert chunks[..k + 1] == chunks[..k] + [c];
      assert Indices(chunks[..k + 1]) == Indices(chunks[..k]) + {c.index};
      byIndex := byIndex[c.index := c];
    }
    assert chunks[..|chunks|] == chunks;
    return Ok(byIndex);
  }

  method LowestIndices(s: set<int>, n: nat) returns (sel: seq<int>)
    requires n <= |s|
    ensures sel == Lowest(s, n)
  {
    var all := Enumerate(s);
    SortForgetsOrder(all, s, IntLess);
    return Sort(all, IntLess)[..n];
  }

  function Concat(rows: Matrix, k: nat): (r: Bytes)
    requires k <= |rows|
  {
    if k == 0 then [] else Concat(rows, k - 1) + rows[k - 1]
  }

  /** Joining the data shards gives back the payload, padded with zeros. */
  lemma {:induction false} ConcatData(payload: Bytes, l: Layout, k: nat)
    requires k <= l.n
    ensures |Concat(DataMatrix(payload, l), k)| == k * l.size
    ensures forall i | 0 <= i < k * l.size :: Concat(DataMatrix(payload, l), k)[i] == At(payload, i)
  {
    if k > 0 {
      ConcatData(payload, l, k - 1);
      assert k * l.size == (k - 1) * l.size + l.size;
    }
  }

  /** Recombines the shards with the inverse and joins the rows. */
  method Decode(inv: Matrix, shards: Matrix, n: nat, size: nat) returns (payload: Bytes, ghost data: Matrix)
    requires |inv| == n == |shards|
    requires forall k | 0 <= k < n :: |inv[k]| == n && |shards[k]| == size
    ensures |data| == n && forall i | 0 <= i < n :: data[i] == CombineRow(inv[i], shards, n, size)
    ensures payload == Concat(data, n)
    ensures |payload| == n * size
  {
    hide Combine;
    var rows: Matrix := [];
    for i := 0 to n
      invariant |rows| == i
      invariant forall k | 0 <= k < i :: rows[k] == CombineRow(inv[k], shards, n, size)
    {
      var row := CombineShards(inv[i], shards, n, size);
      rows := rows + [row];
    }
    payload := [];
    for i := 0 to n
      invariant payload == Concat(rows, i)
      invariant |payload| == i * size
    {
      assert |rows[i]| == size;
      payload := payload + rows[i];
    }
    data := rows;
  }

  /** What decoding yields for the chunks of one encoding. */
  lemma DecodedIsPayload(inv: Matrix, sel: seq<int>, l: Layout, payload: Bytes, shards: Matrix, data: Matrix)
    requires |sel| == l.n == |shards| == |data| && l.n * l.size >= |payload|
    requires IsLeftInverse(inv, CodingMatrix(sel, l.n), l.n)
    requires forall k | 0 <= k < l.n :: shards[k] == Shard(payload, l, sel[k])
    requires forall i | 0 <= i < l.n :: data[i] == CombineRow(inv[i], shards, l.n, l.size)
    ensures |Concat(data, l.n)| >= |payload|
    ensures Concat(data, l.n)[..|payload|] == payload
  {
    hide Combine, CodingMatrix, Shard;
    forall i | 0 <= i < l.n
      ensures data[i] == DataShard(payload, l.size, i)
    {
      forall b | 0 <= b < l.size
        ensures data[i][b] == DataShard(payload, l.size, i)[b]
      {
        DecodeColumn(inv, sel, l, payload, shards, i, b);
      }
    }
    assert data == DataMatrix(payload, l);
    ConcatData(payload, l, l.n);
  }

  /**
   * Rebuilds a payload. Chunks of one encoding in any order and with repeats give back exactly the
   * payload when they hold n distinct indices whose n lowest coding rows are invertible, and are
   * reported unrecoverable otherwise. For arbitrary chunks, whatever is returned has the digest and
   * the identifier that every chunk names.
   */
  method ReconstructErasurePayload(sha: Hash, chunks: seq<Chunk>) returns (r: Result<Bytes, ChunkError>)
    ensures chunks == [] ==> r == Err(Invalid)
    ensures r.Ok? ==> Consistent(sha, chunks) && |Indices(chunks)| >= chunks[0].dataShards
    ensures r.Ok? ==> sha(r.value) == chunks[0].payloadSha && sha(r.value)[..16] == chunks[0].bundleId
    ensures r.Ok? ==> |r.value| == chunks[0].payloadSize
    ensures forall payload: Bytes, l: Layout | AllChunksOf(sha, payload, l, chunks) ::
      r == if |Indices(chunks)| >= l.n && Nonsingular(CodingMatrix(Lowest(Indices(chunks), l.n), l.n))
           then Ok(payload) else Err(Unrecoverable)
  {
    hide Nonsingular, CodingMatrix, CodingRow, Shard, HeaderThen, Lowest, IsChunkOf, Combine, IsLeftInverse;
    if chunks == [] {
      return Err(Invalid);
    }
    var base := chunks[0];
    forall payload: Bytes, l: Layout | AllChunksOf(sha, payload, l, chunks)
      ensures Consistent(sha, chunks) && Valid(base) && base.dataShards == l.n && base.shardSize == l.size
      ensures base.payloadSize == |payload| && base.payloadSha == sha(payload) && base.bundleId == sha(payload)[..16]
      ensures l.n * l.size >= |payload|
    {
      ChunksOfAreConsistent(sha, payload, l, chunks);
      HeaderOf(sha, payload, l, base);
    }
    if !Valid(base) {
      return Err(Invalid);
    }
    var collected := CollectByIndex(sha, chunks);
    if collected.Err? {
      return Err(collected.error);
    }
    var byIndex, n, size := collected.value, base.dataShards, base.shardSize;
    if |byIndex.Keys| < n {
      return Err(Unrecoverable);
    }
    var sel := LowestIndices(byIndex.Keys, n);
    LowestIn(byIndex.Keys, n);
    var matrix: Matrix, shards: Matrix := [], [];
    for k := 0 to n
      invariant |matrix| == |shards| == k
      invariant forall j | 0 <= j < k :: matrix[j] == CodingRow(sel[j], n)
      invariant forall j | 0 <= j < k :: sel[j] in byIndex && shards[j] == byIndex[sel[j]].data
    {
      assert byIndex[sel[k]] in chunks;
      var row := BuildCodingRow(sel[k], n);
      matrix := matrix + [row];
      shards := shards + [byIndex[sel[k]].data];
    }
    MatrixIs(matrix, sel, n);
    var inv := InvertMatrix(matrix);
    if inv.Err? {
      return Err(inv.error);
    }
    InverseShape(inv.value, matrix, n);
    forall j | 0 <= j < n ensures |shards[j]| == size {
      assert byIndex[sel[j]] in chunks;
    }
    ghost var data;
    var payload;
    payload, data := Decode(inv.value, shards, n, size);
    payload := payload[..base.payloadSize];
    forall known: Bytes, l: Layout | AllChunksOf(sha, known, l, chunks)
      ensures payload == known
    {
      forall k | 0 <= k < n ensures shards[k] == Shard(known, l, sel[k]) {
        assert byIndex[sel[k]] in chunks;
        HeaderOf(sha, known, l, byIndex[sel[k]]);
      }
      DecodedIsPayload(inv.value, sel, l, known, shards, data);
    }
    if sha(payload) != base.payloadSha {
      return Err(Unrecoverable);
    }
    if sha(payload)[..16] != base.bundleId {
      return Err(Unrecoverable);
    }
    return Ok(payload);
  }

  lemma HeaderOf(sha: Hash, payload: Bytes, l: Layout, c: Chunk)
    requires IsChunkOf(sha, payload, l, c)
    ensures c.dataShards == l.n && c.shardSize == l.size && c.payloadSize == |payload| && Valid(c)
    ensures c.payloadSha == sha(payload) && c.bundleId == sha(payload)[..16]
    ensures c.data == Shard(payload, l, c.index)
    ensures l.n * l.size >= |payload|
  {
  }

  lemma LowestIn(s: set<int>, n: nat)
    requires n <= |s|
    ensures |Lowest(s, n)| == n && forall k | 0 <= k < n :: Lowest(s, n)[k] in s
  {
    var all := SortedSet(s, IntLess);
    assert forall k | 0 <= k < |all| :: all[k] in Elements(all);
  }

  lemma MatrixIs(matrix: Matrix, sel: seq<int>, n: nat)
    requires |matrix| == |sel| == n && forall j | 0 <= j < n :: matrix[j] == CodingRow(sel[j], n)
    ensures matrix == CodingMatrix(sel, n)
    ensures IsSquare(matrix)
  {
  }

  lemma InverseShape(e: Matrix, m: Matrix, n: nat)
    requires IsLeftInverse(e, m, n)
    ensures |e| == n && forall i | 0 <= i < n :: |e[i]| == n
  {
  }

  /** In the safe range the condition of the reconstruction holds for every sufficient set of chunks. */
  lemma EnoughChunksDecode(s: set<int>, n: nat, p: nat)
    requires n <= 129 && p <= 127 && n <= |s|
    requires forall i | i in s :: 0 <= i < n + p
    ensures Nonsingular(CodingMatrix(Lowest(s, n), n))
  {
    hide Nonsingular;
    LowestIn(s, n);
    var sel := Lowest(s, n);
    SafeRange(sel, n, p);
  }
}
