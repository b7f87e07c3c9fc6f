/** The binary envelope of a chunk. */
module ChunkWire {
  import opened CauchyCode
  import opened ErasureCode
  import opened GaussJordan
  import opened Results

  /** The value of a byte, bit by bit. */
  function ToInt(b: bv8): (r: nat) {
    (if b & 0x01 != 0 then 1 else 0) + (if b & 0x02 != 0 then 2 else 0) + (if b & 0x04 != 0 then 4 else 0) +
    (if b & 0x08 != 0 then 8 else 0) + (if b & 0x10 != 0 then 16 else 0) + (if b & 0x20 != 0 then 32 else 0) +
    (if b & 0x40 != 0 then 64 else 0) + (if b & 0x80 != 0 then 128 else 0)
  }

  function ReadU16(s: Bytes): (r: nat)
    requires |s| == 2
  {
    256 * ToInt(s[0]) + ToInt(s[1])
  }

  function ReadU32(s: Bytes): (r: nat)
    requires |s| == 4
  {
    65536 * ReadU16(s[..2]) + ReadU16(s[2..])
  }

  function MarshalBinary(c: Chunk): (r: Result<Bytes, ChunkError>) {
    if !Valid(c) then Err(Invalid) else Ok(HeaderThen(c, c.chunkSha + c.data))
  }

  function ParseEncodedChunk(sha: Hash, raw: Bytes): (r: Result<Chunk, ChunkError>) {
    if |raw| < CHUNK_HEADER_SIZE then Err(Invalid)
    else if raw[..4] != [0x53, 0x4e, 0x43, 0x45] || raw[4] != 1 then Err(Invalid)
    else
      var c := Chunk(raw[6..22], ReadU16(raw[22..24]), ReadU16(raw[24..26]), ReadU16(raw[26..28]),
                     ReadU32(raw[28..32]), ReadU16(raw[32..34]), raw[34..66], raw[66..98], raw[98..]);
      if !Valid(c) then Err(Invalid)
      else if ChecksumOf(sha, c) != c.chunkSha then Err(Checksum)
      else Ok(c)
  }

  // ---------------------------------------------------------------- integers on the wire

  lemma BitsOfFromBits(b0: bool, b1: bool, b2: bool, b3: bool, b4: bool, b5: bool, b6: bool, b7: bool)
    ensures var b := FromBits(b0, b1, b2, b3, b4, b5, b6, b7);
      && (b & 0x01 != 0) == b0 && (b & 0x02 != 0) == b1 && (b & 0x04 != 0) == b2 && (b & 0x08 != 0) == b3
      && (b & 0x10 != 0) == b4 && (b & 0x20 != 0) == b5 && (b & 0x40 != 0) == b6 && (b & 0x80 != 0) == b7
  {
  }

  lemma ByteRoundTrip(i: int)
    requires 0 <= i < 256
    ensures ToInt(ByteOf(i)) == i
  {
    hide FromBits, Odd, Halves;
    var (i1, i2, i3, i4, i5, i6, i7) := Halves(i);
    BitsOfFromBits(Odd(i), Odd(i1), Odd(i2), Odd(i3), Odd(i4), Odd(i5), Odd(i6), Odd(i7));
    HalvesLaws(i);
  }

  lemma U16RoundTrip(v: nat)
    requires v < 65536
    ensures ReadU16(U16(v)) == v
  {
    hide ToInt, ByteOf;
    ByteRoundTrip(v / 256); ByteRoundTrip(v % 256);
  }

  lemma U32RoundTrip(v: nat)
    requires v < 0x1_0000_0000
    ensures ReadU32(U32(v)) == v
  {
    hide ReadU16, ByteOf;
    U16RoundTrip(v / 65536); U16RoundTrip(v % 65536);
    assert U32(v)[..2] == U16(v / 65536) && U32(v)[2..] == U16(v % 65536);
  }

  lemma U16Overflow()
    ensures ReadU16(U16(65536)) == 0
  {
    hide ToInt, ByteOf;
    ByteWrap(0); ByteRoundTrip(0);
  }

  // ---------------------------------------------------------------- the round trip

  lemma Field(raw: Bytes, off: nat, f: Bytes, rest: Bytes)
    requires off <= |raw| && raw[off..] == f + rest
    ensures off + |f| <= |raw| && raw[off..off + |f|] == f && raw[off + |f|..] == rest
  {
    assert |raw[off..]| == |f| + |rest|;
    assert raw[off..off + |f|] == raw[off..][..|f|];
    assert raw[off + |f|..] == raw[off..][|f|..];
  }

  lemma ThreeFields(raw: Bytes, off: nat, f: Bytes, g: Bytes, h: Bytes, rest: Bytes)
    requires off <= |raw| && raw[off..] == f + (g + (h + rest))
    ensures off + |f| + |g| + |h| <= |raw|
    ensures raw[off..off + |f|] == f && raw[off + |f|..off + |f| + |g|] == g
    ensures raw[off + |f| + |g|..off + |f| + |g| + |h|] == h && raw[off + |f| + |g| + |h|..] == rest
  {
    var t1, t2 := g + (h + rest), h + rest;
    Field(raw, off, f, t1); Field(raw, off + |f|, g, t2); Field(raw, off + |f| + |g|, h, rest);
  }

  /** The fields of a chunk sit at fixed offsets. */
  lemma HeaderFields(c: Chunk, raw: Bytes)
    requires Valid(c) && raw == HeaderThen(c, c.chunkSha + c.data)
    ensures |raw| >= CHUNK_HEADER_SIZE && raw[..6] == [0x53, 0x4e, 0x43, 0x45, 1, 0]
    ensures raw[6..22] == c.bundleId && raw[22..24] == U16(c.index) && raw[24..26] == U16(c.dataShards)
    ensures raw[26..28] == U16(c.parityShards) && raw[28..32] == U32(c.payloadSize) && raw[32..34] == U16(c.shardSize)
    ensures raw[34..66] == c.payloadSha && raw[66..98] == c.chunkSha && raw[98..] == c.data
  {
    hide U16, U32;
    var i, n, p, z, s := U16(c.index), U16(c.dataShards), U16(c.parityShards), U32(c.payloadSize), U16(c.shardSize);
    U16Length(c.index); U16Length(c.dataShards); U16Length(c.parityShards);
    U16Length(c.shardSize); U32Length(c.payloadSize);
    HeaderParts(raw, c.bundleId, i, n, p, z, s, c.payloadSha, c.chunkSha, c.data);
  }

  lemma ToIntIsValue(b: bv8)
    ensures ToInt(b) == b as int
  {
  }

  /** Two bytes from `off` on, the more significant one first. */
  function BigEndian(raw: Bytes, off: nat): (r: nat)
    requires off + 2 <= |raw|
  {
    raw[off] as int * 256 + raw[off + 1] as int
  }

  lemma U16IsBigEndian(raw: Bytes, off: nat, v: nat)
    requires off + 2 <= |raw| && raw[off..off + 2] == U16(v) && v < 65536
    ensures BigEndian(raw, off) == v
  {
    hide ToInt, ByteOf;
    U16RoundTrip(v);
    ToIntIsValue(raw[off]);
    ToIntIsValue(raw[off + 1]);
    assert raw[off..off + 2] == [raw[off], raw[off + 1]];
  }

  /** The numbers of a marshalled chunk as any reader of the wire sees them; a shard size of 65536 reads as zero. */
  lemma HeaderNumbers(c: Chunk, raw: Bytes)
    requires Valid(c) && raw == HeaderThen(c, c.chunkSha + c.data)
    ensures |raw| >= CHUNK_HEADER_SIZE
    ensures BigEndian(raw, 22) == c.index && BigEndian(raw, 24) == c.dataShards && BigEndian(raw, 26) == c.parityShards
    ensures BigEndian(raw, 28) * 65536 + BigEndian(raw, 30) == c.payloadSize
    ensures BigEndian(raw, 32) == c.shardSize % 65536
  {
    hide U16, BigEndian, HeaderThen;
    HeaderFields(c, raw);
    U16IsBigEndian(raw, 22, c.index);
    U16IsBigEndian(raw, 24, c.dataShards);
    U16IsBigEndian(raw, 26, c.parityShards);
    var high, low := c.payloadSize / 65536, c.payloadSize % 65536;
    U16Length(high); U16Length(low);
    assert raw[28..32] == U16(high) + U16(low);
    assert raw[28..30] == raw[28..32][..2] && raw[30..32] == raw[28..32][2..];
    U16IsBigEndian(raw, 28, high);
    U16IsBigEndian(raw, 30, low);
    if c.shardSize == 65536 {
      U16Wraps();
      U16IsBigEndian(raw, 32, 0);
    } else {
      U16IsBigEndian(raw, 32, c.shardSize);
    }
  }

  lemma U16Wraps()
    ensures U16(65536) == U16(0)
  {
    hide ByteOf;
    ByteWrap(0);
  }

  lemma HeaderParts(raw: Bytes, id: BundleId, i: Bytes, n: Bytes, p: Bytes, z: Bytes, s: Bytes, d: Digest, h: Digest,
                    x: Bytes)
    requires |i| == |n| == |p| == |s| == 2 && |z| == 4
    requires raw == [0x53, 0x4e, 0x43, 0x45, 1, 0] + (id + (i + (n + (p + (z + (s + (d + (h + x))))))))
    ensures |raw| >= CHUNK_HEADER_SIZE && raw[..6] == [0x53, 0x4e, 0x43, 0x45, 1, 0]
    ensures raw[6..22] == id && raw[22..24] == i && raw[24..26] == n && raw[26..28] == p && raw[28..32] == z
    ensures raw[32..34] == s && raw[34..66] == d && raw[66..98] == h && raw[98..] == x
  {
    var t6 := s + (d + (h + x));
    var t3 := n + (p + (z + t6));
    assert raw == raw[0..];
    ThreeFields(raw, 0, [0x53, 0x4e, 0x43, 0x45, 1, 0], id, i, t3);
    ThreeFields(raw, 24, n, p, z, t6);
    ThreeFields(raw, 32, s, d, h, x);
  }

  lemma U16Length(v: nat)
    ensures |U16(v)| == 2
  {
  }

  lemma U32Length(v: nat)
    ensures |U32(v)| == 4
  {
  }

  /** A valid chunk survives the wire exactly when its shard size fits the 16-bit field. */
  lemma WireRoundTrip(sha: Hash, c: Chunk)
    requires Valid(c) && c.chunkSha == ChecksumOf(sha, c)
    ensures MarshalBinary(c).Ok?
    ensures ParseEncodedChunk(sha, MarshalBinary(c).value) == Ok(c) <==> c.shardSize <= 65535
    ensures c.shardSize == 65536 ==> ParseEncodedChunk(sha, MarshalBinary(c).value) == Err(Invalid)
  {
    hide ReadU16, ReadU32, U16, U32, HeaderThen, ChecksumOf;
    var raw := MarshalBinary(c).value;
    HeaderFields(c, raw);
    assert raw[..4] == raw[..6][..4] && raw[4] == raw[..6][4];
    U16RoundTrip(c.index); U16RoundTrip(c.dataShards); U16RoundTrip(c.parityShards); U32RoundTrip(c.payloadSize);
    if c.shardSize <= 65535 {
      U16RoundTrip(c.shardSize);
    } else {
      U16Overflow();
    }
  }

  // ---------------------------------------------------------------- what the parser accepts

  lemma ByteBack(b: bv8)
    ensures 0 <= ToInt(b) < 256 && ByteOf(ToInt(b)) == b
  {
    hide ToInt, ByteOf;
    ToIntIsValue(b);
    ByteRoundTrip(b as int);
    ToIntIsValue(ByteOf(b as int));
  }

  lemma U16Back(raw: Bytes, off: nat)
    requires off + 2 <= |raw|
    ensures ReadU16(raw[off..off + 2]) == BigEndian(raw, off) < 65536
    ensures U16(BigEndian(raw, off)) == raw[off..off + 2]
  {
    hide ToInt, ByteOf;
    ByteBack(raw[off]);
    ByteBack(raw[off + 1]);
    ToIntIsValue(raw[off]);
    ToIntIsValue(raw[off + 1]);
  }

  lemma U32Back(raw: Bytes, off: nat)
    requires off + 4 <= |raw|
    ensures ReadU32(raw[off..off + 4]) == BigEndian(raw, off) * 65536 + BigEndian(raw, off + 2)
    ensures U32(ReadU32(raw[off..off + 4])) == raw[off..off + 4]
  {
    hide ReadU16, U16, BigEndian;
    var word := raw[off..off + 4];
    assert word[..2] == raw[off..off + 2] && word[2..] == raw[off + 2..off + 4];
    U16Back(raw, off);
    U16Back(raw, off + 2);
    assert word == word[..2] + word[2..];
  }

  /** The bytes as they would be with the reserved byte zero and without the checksum. */
  ghost function Summed(raw: Bytes): (r: Bytes)
    requires |raw| >= 98
  {
    raw[..5] + [0] + raw[6..66] + raw[98..]
  }

  /** Magic, version, counts, sizes and checksum are in order; the reserved byte does not matter. */
  ghost predicate InOrder(sha: Hash, raw: Bytes) {
    && |raw| >= 98 && raw[..5] == [0x53, 0x4e, 0x43, 0x45, 1]
    && var index, n, p, size := BigEndian(raw, 22), BigEndian(raw, 24), BigEndian(raw, 26), BigEndian(raw, 32);
       var len := BigEndian(raw, 28) * 65536 + BigEndian(raw, 30);
       && n > 0 && p > 0 && n + p <= 255 && index < n + p
       && 0 < len <= 2097152 && 0 < size && |raw| == 98 + size && n * size >= len
       && raw[66..98] == sha(Summed(raw))
  }

  /** The fields that the parser reads, written out again. */
  lemma ReadBack(raw: Bytes, c: Chunk)
    requires |raw| >= 98 && raw[..5] == [0x53, 0x4e, 0x43, 0x45, 1]
    requires c == Chunk(raw[6..22], ReadU16(raw[22..24]), ReadU16(raw[24..26]), ReadU16(raw[26..28]),
                        ReadU32(raw[28..32]), ReadU16(raw[32..34]), raw[34..66], raw[66..98], raw[98..])
    ensures HeaderThen(c, c.data) == Summed(raw)
    ensures HeaderThen(c, c.chunkSha + c.data) == raw[5 := 0]
  {
    hide ReadU16, ReadU32, U16, U32, BigEndian;
    U16Back(raw, 22); U16Back(raw, 24); U16Back(raw, 26); U32Back(raw, 28); U16Back(raw, 32);
    FieldsJoin(raw);
    assert raw[..5] + [0] == [0x53, 0x4e, 0x43, 0x45, 1, 0];
    assert raw[5 := 0] == raw[..5] + [0] + raw[6..66] + (raw[66..98] + raw[98..]);
  }

  /** The fields from the identifier to the payload digest follow each other without a gap. */
  lemma FieldsJoin(raw: Bytes)
    requires |raw| >= 98
    ensures forall rest: Bytes ::
      raw[6..22] + (raw[22..24] + (raw[24..26] + (raw[26..28] + (raw[28..32] + (raw[32..34] + (raw[34..66] + rest))))))
        == raw[6..66] + rest
  {
  }

  /** A chunk is parsed if and only if its bytes are in order; then it marshals to them, with the reserved byte zero. */
  lemma ParsesExactly(sha: Hash, raw: Bytes)
    ensures var r := ParseEncodedChunk(sha, raw);
      && (r.Ok? <==> InOrder(sha, raw))
      && (r.Ok? ==> MarshalBinary(r.value) == Ok(raw[5 := 0]))
  {
    hide ReadU16, ReadU32, U16, U32, BigEndian, HeaderThen, Summed;
    if |raw| >= 98 {
      U16Back(raw, 22); U16Back(raw, 24); U16Back(raw, 26); U32Back(raw, 28); U16Back(raw, 32);
      assert raw[..5] == raw[..4] + [raw[4]];
      if raw[..5] == [0x53, 0x4e, 0x43, 0x45, 1] {
        ReadBack(raw, Chunk(raw[6..22], ReadU16(raw[22..24]), ReadU16(raw[24..26]), ReadU16(raw[26..28]),
                            ReadU32(raw[28..32]), ReadU16(raw[32..34]), raw[34..66], raw[66..98], raw[98..]));
      }
    }
  }
}
