/** The diode datagram: one Reed-Solomon shard of one block, with the file's full metadata. */
module Wire {
  import opened Bytes

  const MAGIC: u32 := 0x41474431
  const VERSION: u8 := 1
  const HEADER_SIZE := 224
  const NAME_MAX := 128
  const CRC_OFFSET := 220
  const MAX_SHARD_SIZE := 60000
  const MAX_TOTAL_SHARDS := 256
  const MAX_BLOCK_COUNT := 4194304 // 1 << 22

  datatype Packet = Packet(
    transferID: Data, sha256: Data, name: Data, fileSize: int,
    blockCount: int, blockIndex: int, blockOffset: int, blockLen: int,
    shardSize: int, dataShards: int, parityShards: int, shardIndex: int, shard: Data)

  /** The Go types of the fields. The int fields stay far from wrapping when two are added. */
  predicate Typed(p: Packet)
  {
    && |p.transferID| == 16 && |p.sha256| == 32
    && IsInt64(p.fileSize) && IsInt64(p.blockOffset)
    && 0 <= p.blockCount < 0x1_0000_0000 && 0 <= p.blockIndex < 0x1_0000_0000
    && SmallInt(p.blockLen) && SmallInt(p.shardSize)
    && SmallInt(p.dataShards) && SmallInt(p.parityShards) && SmallInt(p.shardIndex)
  }

  predicate IsInt64(x: int) { -0x8000_0000_0000_0000 <= x < 0x8000_0000_0000_0000 }

  predicate SmallInt(x: int) { -0x4000_0000_0000_0000 <= x < 0x4000_0000_0000_0000 }

  datatype WireError =
    | TooShort | BadMagic | BadVersion | BadChecksum | BadNameLength
    | BadGeometry | BadShardSize | BadShardIndex | BadBlockIndex
    | BadFileSize | BadBlockLength | BadBlockOffset

  datatype Parsed = Accepted(packet: Packet) | Rejected(error: WireError)

  function ValidateShards(p: Packet): Option<WireError>
  {
    if p.dataShards < 1 || p.parityShards < 1 || p.dataShards + p.parityShards > MAX_TOTAL_SHARDS then
      Some(BadGeometry)
    else if p.shardSize < 1 || p.shardSize > MAX_SHARD_SIZE || |p.shard| != p.shardSize then
      Some(BadShardSize)
    else if p.shardIndex >= p.dataShards + p.parityShards then
      Some(BadShardIndex)
    else
      None
  }

  function Validate(p: Packet): Option<WireError>
  {
    var e := ValidateShards(p);
    if e.Some? then e
    else if p.blockCount < 1 || p.blockCount > MAX_BLOCK_COUNT || p.blockIndex >= p.blockCount then
      Some(BadBlockIndex)
    else if p.fileSize < 1 || p.blockCount > p.fileSize then
      Some(BadFileSize)
    else if p.blockLen < 1 || p.blockLen > p.dataShards * p.shardSize then
      Some(BadBlockLength)
    else if p.blockOffset < 0 || p.blockOffset > p.fileSize - p.blockLen then
      Some(BadBlockOffset)
    else
      None
  }

  /** What validation accepts, and otherwise what is wrong first: the geometry, the shard, its index, the
      block's index, the file's size, the block's length, its offset. */
  lemma ValidateMeans(p: Packet)
    ensures var geometry := 1 <= p.dataShards && 1 <= p.parityShards && p.dataShards + p.parityShards <= 256;
      var shard := 1 <= p.shardSize <= 60_000 && |p.shard| == p.shardSize;
      var shardIndex := p.shardIndex < p.dataShards + p.parityShards;
      var blockIndex := 1 <= p.blockCount <= 4_194_304 && p.blockIndex < p.blockCount;
      var fileSize := 1 <= p.fileSize && p.blockCount <= p.fileSize;
      var blockLength := 1 <= p.blockLen <= p.dataShards * p.shardSize;
      var blockOffset := 0 <= p.blockOffset && p.blockOffset + p.blockLen <= p.fileSize;
      Validate(p) ==
        if !geometry then Some(BadGeometry) else if !shard then Some(BadShardSize) else if !shardIndex then Some(BadShardIndex)
        else if !blockIndex then Some(BadBlockIndex) else if !fileSize then Some(BadFileSize)
        else if !blockLength then Some(BadBlockLength) else if !blockOffset then Some(BadBlockOffset) else None
  {
  }

  /** Go's int64(uint64) conversion. */
  function AsInt64(u: nat): int
  {
    if u >= 0x8000_0000_0000_0000 then u - 0x1_0000_0000_0000_0000 else u
  }

  function NameOk(name: Data): bool { 1 <= |name| <= NAME_MAX }

  /** The header up to the checksum. */
  function Body(p: Packet): (b: Data)
    requires Typed(p) && NameOk(p.name)
    ensures |b| == CRC_OFFSET
  {
    Fixed(p) + (p.transferID + (p.sha256 + (p.name + Zeros(NAME_MAX - |p.name|))))
  }

  function Fixed(p: Packet): (b: Data)
    requires NameOk(p.name)
    ensures |b| == 44
  {
    PutBE(MAGIC, 4) + ([VERSION] + ([|p.name|] +
    (PutBE(p.dataShards, 2) + (PutBE(p.parityShards, 2) + (PutBE(p.shardIndex, 2) +
    (PutBE(p.blockIndex, 4) + (PutBE(p.blockCount, 4) + (PutBE(p.shardSize, 4) + (PutBE(p.blockLen, 4) +
    (PutBE(p.blockOffset, 8) + PutBE(p.fileSize, 8)))))))))))
  }

  /** The bytes the checksum covers: everything but the checksum field. */
  function Covered(b: Data): Data
    requires |b| >= HEADER_SIZE
  {
    b[..CRC_OFFSET] + b[HEADER_SIZE..]
  }

  /** The datagram of a packet whose name fits the header. */
  function Datagram(crc: Data -> u32, p: Packet): (b: Data)
    requires Typed(p) && NameOk(p.name)
    ensures |b| == HEADER_SIZE + |p.shard|
  {
    Body(p) + (PutBE(crc(Body(p) + p.shard), 4) + p.shard)
  }

  function Decoded(b: Data): (p: Packet)
    requires |b| >= HEADER_SIZE && 1 <= b[5] <= NAME_MAX
  {
    Packet(
      b[44..60], b[60..92], b[92..92 + b[5]], AsInt64(GetBE(b[36..44])),
      GetBE(b[16..20]), GetBE(b[12..16]), AsInt64(GetBE(b[28..36])), GetBE(b[24..28]),
      GetBE(b[20..24]), GetBE(b[6..8]), GetBE(b[8..10]), GetBE(b[10..12]), b[HEADER_SIZE..])
  }

  /** parseDiodePacket. */
  function Parse(crc: Data -> u32, b: Data): Parsed
  {
    if |b| < HEADER_SIZE + 1 then Rejected(TooShort)
    else if GetBE(b[0..4]) != MAGIC then Rejected(BadMagic)
    else if b[4] != VERSION then Rejected(BadVersion)
    else if GetBE(b[CRC_OFFSET..HEADER_SIZE]) != crc(Covered(b)) then Rejected(BadChecksum)
    else if b[5] < 1 || b[5] > NAME_MAX then Rejected(BadNameLength)
    else
      var p := Decoded(b);
      var e := Validate(p);
      if e.Some? then Rejected(e.value) else Accepted(p)
  }

  /** Where the tail of b from at starts with a, so do the next |a| bytes. */
  lemma Peel(b: Data, at: nat, a: Data, rest: Data)
    requires at <= |b| && b[at..] == a + rest
    ensures at + |a| <= |b| && b[at..at + |a|] == a && b[at + |a|..] == rest
  {
    assert b[at..at + |a|] == b[at..][..|a|];
    assert b[at + |a|..] == b[at..][|a|..];
  }

  /** Every fixed-width field of the header sits at its offset. */
  lemma FixedFields(p: Packet, b: Data, tail: Data)
    requires NameOk(p.name) && b == Fixed(p) + tail
    ensures |b| >= 44
    ensures b[0..4] == PutBE(MAGIC, 4) && b[4..5] == [VERSION] && b[5..6] == [|p.name|]
    ensures b[6..8] == PutBE(p.dataShards, 2) && b[8..10] == PutBE(p.parityShards, 2)
    ensures b[10..12] == PutBE(p.shardIndex, 2)
    ensures b[12..16] == PutBE(p.blockIndex, 4) && b[16..20] == PutBE(p.blockCount, 4)
    ensures b[20..24] == PutBE(p.shardSize, 4) && b[24..28] == PutBE(p.blockLen, 4)
    ensures b[28..36] == PutBE(p.blockOffset, 8) && b[36..44] == PutBE(p.fileSize, 8)
    ensures b[44..] == tail
  {
    var f11, f10, f9 := PutBE(p.fileSize, 8), PutBE(p.blockOffset, 8), PutBE(p.blockLen, 4);
    var f8, f7, f6 := PutBE(p.shardSize, 4), PutBE(p.blockCount, 4), PutBE(p.blockIndex, 4);
    var f5, f4, f3 := PutBE(p.shardIndex, 2), PutBE(p.parityShards, 2), PutBE(p.dataShards, 2);
    var f2: Data, f1: Data, f0 := [|p.name|], [VERSION], PutBE(MAGIC, 4);
    PeelTwelve(b, f0, f1, f2, f3, f4, f5, f6, f7, f8, f9, f10, f11, tail);
  }

  lemma PeelTwelve(
    b: Data, f0: Data, f1: Data, f2: Data, f3: Data, f4: Data, f5: Data,
    f6: Data, f7: Data, f8: Data, f9: Data, f10: Data, f11: Data, tail: Data)
    requires |f0| == 4 && |f1| == 1 && |f2| == 1 && |f3| == 2 && |f4| == 2 && |f5| == 2
    requires |f6| == 4 && |f7| == 4 && |f8| == 4 && |f9| == 4 && |f10| == 8 && |f11| == 8
    requires b == (f0 + (f1 + (f2 + (f3 + (f4 + (f5 + (f6 + (f7 + (f8 + (f9 + (f10 + f11))))))))))) + tail
    ensures |b| >= 44
    ensures b[0..4] == f0 && b[4..5] == f1 && b[5..6] == f2 && b[6..8] == f3 && b[8..10] == f4
    ensures b[10..12] == f5 && b[12..16] == f6 && b[16..20] == f7 && b[20..24] == f8
    ensures b[24..28] == f9 && b[28..36] == f10 && b[36..44] == f11 && b[44..] == tail
  {
    var r11 := f11;
    var r10 := f10 + r11;
    var r9 := f9 + r10;
    var r8 := f8 + r9;
    var r7 := f7 + r8;
    var r6 := f6 + r7;
    var r5 := f5 + r6;
    var r4 := f4 + r5;
    var r3 := f3 + r4;
    var r2 := f2 + r3;
    var r1 := f1 + r2;
    Assoc(f0, r1, tail); Assoc(f1, r2, tail); Assoc(f2, r3, tail); Assoc(f3, r4, tail);
    Assoc(f4, r5, tail); Assoc(f5, r6, tail); Assoc(f6, r7, tail); Assoc(f7, r8, tail);
    Assoc(f8, r9, tail); Assoc(f9, r10, tail); Assoc(f10, r11, tail);
    assert b[0..] == b;
    Peel(b, 0, f0, r1 + tail);
    Peel(b, 4, f1, r2 + tail);
    Peel(b, 5, f2, r3 + tail);
    Peel(b, 6, f3, r4 + tail);
    Peel(b, 8, f4, r5 + tail);
    Peel(b, 10, f5, r6 + tail);
    Peel(b, 12, f6, r7 + tail);
    Peel(b, 16, f7, r8 + tail);
    Peel(b, 20, f8, r9 + tail);
    Peel(b, 24, f9, r10 + tail);
    Peel(b, 28, f10, r11 + tail);
    Peel(b, 36, f11, tail);
  }

  lemma Assoc(a: Data, b: Data, c: Data)
    ensures (a + b) + c == a + (b + c)
  {
  }

  /** The variable part of a datagram, and the bytes its checksum was taken over. */
  lemma DatagramFields(crc: Data -> u32, p: Packet)
    requires Typed(p) && NameOk(p.name)
    ensures var b := Datagram(crc, p);
      && b[44..60] == p.transferID && b[60..92] == p.sha256 && b[92..92 + |p.name|] == p.name
      && b[92 + |p.name|..CRC_OFFSET] == Zeros(NAME_MAX - |p.name|)
      && b[CRC_OFFSET..HEADER_SIZE] == PutBE(crc(Covered(b)), 4)
      && b[HEADER_SIZE..] == p.shard
    ensures exists tail: Data :: Datagram(crc, p) == Fixed(p) + tail
  {
    var b := Datagram(crc, p);
    var sum := PutBE(crc(Body(p) + p.shard), 4);
    var pad := Zeros(NAME_MAX - |p.name|);
    var r4 := sum + p.shard;
    var r3 := pad + r4;
    var r2 := p.name + r3;
    var r1 := p.sha256 + r2;
    var r0 := p.transferID + r1;
    assert b == Fixed(p) + r0 by {
      var t2 := p.name + pad;
      var t1 := p.sha256 + t2;
      var t0 := p.transferID + t1;
      Assoc(Fixed(p), t0, r4);
      Assoc(p.transferID, t1, r4);
      Assoc(p.sha256, t2, r4);
      Assoc(p.name, pad, r4);
    }
    Peel(b, 0, Fixed(p), r0);
    Peel(b, 44, p.transferID, r1);
    Peel(b, 60, p.sha256, r2);
    Peel(b, 92, p.name, r3);
    Peel(b, 92 + |p.name|, pad, r4);
    Peel(b, CRC_OFFSET, sum, p.shard);
    assert b[..CRC_OFFSET] == Body(p);
    assert Covered(b) == Body(p) + p.shard;
  }

  /** A field of k bytes reads back modulo its width. */
  lemma FieldValue(x: int, n: nat, b: Data)
    requires b == PutBE(x, n)
    ensures GetBE(b) == x % Pow256(n)
  {
    GetPutBE(x, n);
  }

  /** Go's uint16 conversion of an int. */
  function Low16(x: int): int { x % 0x1_0000 }

  /** Go's uint32 conversion of an int. */
  function Low32(x: int): int { x % 0x1_0000_0000 }

  /** A packet as its header fields can carry it. */
  function Truncated(p: Packet): Packet
  {
    p.(blockLen := Low32(p.blockLen), shardSize := Low32(p.shardSize),
       dataShards := Low16(p.dataShards), parityShards := Low16(p.parityShards),
       shardIndex := Low16(p.shardIndex))
  }

  lemma Int64Value(x: int)
    requires IsInt64(x)
    ensures AsInt64(x % 0x1_0000_0000_0000_0000) == x
  {
  }

  /** Marshalling truncates the int fields to their header width and changes nothing else. */
  lemma DecodedDatagram(crc: Data -> u32, p: Packet)
    requires Typed(p) && NameOk(p.name)
    ensures var b := Datagram(crc, p);
      && b[5] == |p.name| && GetBE(b[0..4]) == MAGIC && b[4] == VERSION
      && GetBE(b[CRC_OFFSET..HEADER_SIZE]) == crc(Covered(b))
      && Decoded(b) == Truncated(p)
  {
    hide Body, Fixed, Datagram, PutBE;
    var b := Datagram(crc, p);
    DatagramFields(crc, p);
    var tail :| b == Fixed(p) + tail;
    FixedFields(p, b, tail);
    assert b[4] == b[4..5][0] && b[5] == b[5..6][0];
    Widths();
    FieldValue(MAGIC, 4, b[0..4]);
    FieldValue(crc(Covered(b)), 4, b[CRC_OFFSET..HEADER_SIZE]);
    FieldValue(p.dataShards, 2, b[6..8]);
    FieldValue(p.parityShards, 2, b[8..10]);
    FieldValue(p.shardIndex, 2, b[10..12]);
    FieldValue(p.blockIndex, 4, b[12..16]);
    FieldValue(p.blockCount, 4, b[16..20]);
    FieldValue(p.shardSize, 4, b[20..24]);
    FieldValue(p.blockLen, 4, b[24..28]);
    FieldValue(p.blockOffset, 8, b[28..36]);
    FieldValue(p.fileSize, 8, b[36..44]);
    Int64Value(p.blockOffset);
    Int64Value(p.fileSize);
  }

  /** What parsing a marshalled packet yields, for every packet: validation of the truncated fields. */
  lemma ParseDatagram(crc: Data -> u32, p: Packet)
    requires Typed(p) && NameOk(p.name) && p.shard != []
    ensures var v := Validate(Truncated(p));
      Parse(crc, Datagram(crc, p)) == if v.Some? then Rejected(v.value) else Accepted(Truncated(p))
  {
    DecodedDatagram(crc, p);
  }

  lemma ShardsFit(d: nat, n: nat)
    requires d <= MAX_TOTAL_SHARDS && n <= MAX_SHARD_SIZE
    ensures d * n <= 15_360_000
  {
    assert (MAX_TOTAL_SHARDS - d) * n >= 0;
  }

  /** The bounds validation establishes. */
  lemma ValidBounds(p: Packet)
    requires Validate(p).None?
    ensures 1 <= p.dataShards < MAX_TOTAL_SHARDS && 1 <= p.parityShards < MAX_TOTAL_SHARDS
    ensures p.dataShards + p.parityShards <= MAX_TOTAL_SHARDS && p.shardIndex < p.dataShards + p.parityShards
    ensures 1 <= p.shardSize <= MAX_SHARD_SIZE && |p.shard| == p.shardSize
    ensures 1 <= p.blockCount <= MAX_BLOCK_COUNT && p.blockIndex < p.blockCount <= p.fileSize
    ensures 1 <= p.blockLen <= p.dataShards * p.shardSize <= 15_360_000
    ensures 0 <= p.blockOffset && p.blockOffset + p.blockLen <= p.fileSize
  {
    ShardsFit(p.dataShards, p.shardSize);
  }

  /** The fields of a valid packet with a shard index from 0 fit the header. */
  lemma ValidFits(p: Packet)
    requires Validate(p).None? && p.shardIndex >= 0
    ensures Truncated(p) == p
  {
    hide Validate;
    ValidBounds(p);
  }

  /** The wire round trip. A valid packet comes back from its own datagram exactly when its shard
      index is not negative: validate bounds the index from above only, and the header holds it as
      an unsigned 16-bit number. */
  lemma RoundTrip(crc: Data -> u32, p: Packet)
    requires Typed(p) && NameOk(p.name) && Validate(p).None?
    ensures Parse(crc, Datagram(crc, p)) == Accepted(p) <==> p.shardIndex >= 0
  {
    hide Body, Fixed, Datagram, Decoded, Parse, Validate;
    ValidNotEmpty(p);
    ParseDatagram(crc, p);
    if p.shardIndex >= 0 {
      ValidFits(p);
    }
  }

  lemma ValidNotEmpty(p: Packet)
    requires Validate(p).None?
    ensures p.shard != []
  {
  }

  /** A valid packet whose datagram the receiver refuses. No parser result has a negative index, so only
      code that builds packets itself could make one; it marks where the round trip ends. */
  lemma NegativeShardIndexIsLost(crc: Data -> u32)
    ensures var p := Packet(Zeros(16), Zeros(32), [0x61], 1, 1, 0, 0, 1, 1, 1, 1, -1, [0]);
      Typed(p) && NameOk(p.name) && Validate(p).None? &&
      Parse(crc, Datagram(crc, p)) == Rejected(BadShardIndex)
  {
    hide Body, Fixed, Datagram, Decoded, Parse;
    var p := Packet(Zeros(16), Zeros(32), [0x61], 1, 1, 0, 0, 1, 1, 1, 1, -1, [0]);
    ParseDatagram(crc, p);
  }

  /** Everything parseDiodePacket lets through is typed, valid and bounded from below. */
  lemma ParsedIsValid(crc: Data -> u32, b: Data)
    ensures Parse(crc, b).Accepted? ==>
      var p := Parse(crc, b).packet;
      Typed(p) && NameOk(p.name) && Validate(p).None? && p.shardIndex >= 0
  {
    if Parse(crc, b).Accepted? {
      Widths();
      GetBEBound(b[36..44]); GetBEBound(b[28..36]);
      GetBEBound(b[16..20]); GetBEBound(b[12..16]);
      GetBEBound(b[24..28]); GetBEBound(b[20..24]);
      GetBEBound(b[6..8]); GetBEBound(b[8..10]); GetBEBound(b[10..12]);
    }
  }

  /** Two's complement survives the trip through int64 and back into eight bytes. */
  lemma {:induction false} PutBEMod(x: int, y: int, n: nat)
    requires x % Pow256(n) == y % Pow256(n)
    ensures PutBE(x, n) == PutBE(y, n)
  {
    GetPutBE(x, n);
    GetPutBE(y, n);
    PutGetBE(PutBE(x, n));
    PutGetBE(PutBE(y, n));
  }

  /** The converse: an accepted datagram is the datagram of the packet it parses to exactly when
      the unused tail of its name field is zero. Nothing else in the datagram is ignored. */
  lemma Canonical(crc: Data -> u32, b: Data)
    requires Parse(crc, b).Accepted?
    ensures var p := Parse(crc, b).packet;
      && Typed(p) && NameOk(p.name)
      && (Datagram(crc, p) == b <==> b[92 + |p.name|..CRC_OFFSET] == Zeros(NAME_MAX - |p.name|))
  {
    hide Body, Fixed, PutBE, GetBE, Validate;
    ParsedIsValid(crc, b);
    var p := Parse(crc, b).packet;
    if b[92 + |p.name|..CRC_OFFSET] == Zeros(NAME_MAX - |p.name|) {
      FixedFromFields(b);
      assert p == Decoded(b);
      BodyFromFields(p, b);
      PutGetBE(b[CRC_OFFSET..HEADER_SIZE]);
      assert b == b[..CRC_OFFSET] + (b[CRC_OFFSET..HEADER_SIZE] + b[HEADER_SIZE..]);
    } else if Datagram(crc, p) == b {
      DatagramFields(crc, p);
    }
  }

  lemma BodyFromFields(p: Packet, b: Data)
    requires |b| >= HEADER_SIZE && Typed(p) && NameOk(p.name) && b[..44] == Fixed(p)
    requires p.transferID == b[44..60] && p.sha256 == b[60..92] && p.name == b[92..92 + |p.name|]
    requires b[92 + |p.name|..CRC_OFFSET] == Zeros(NAME_MAX - |p.name|)
    ensures b[..CRC_OFFSET] == Body(p)
  {
    hide Fixed, PutBE;
    var c := b[..CRC_OFFSET];
    var n := 92 + |p.name|;
    assert c[n..] == b[n..CRC_OFFSET];
    assert c[92..] == p.name + c[n..];
    assert c[60..] == p.sha256 + c[92..];
    assert c[44..] == p.transferID + c[60..];
    assert c == b[..44] + c[44..];
  }

  lemma FixedFromFields(b: Data)
    requires |b| >= HEADER_SIZE && 1 <= b[5] <= NAME_MAX
    requires GetBE(b[0..4]) == MAGIC && b[4] == VERSION
    ensures b[..44] == Fixed(Decoded(b))
  {
    hide PutBE, GetBE;
    var p := Decoded(b);
    PutGetBE(b[0..4]);
    PutGetBE(b[6..8]); PutGetBE(b[8..10]); PutGetBE(b[10..12]);
    PutGetBE(b[12..16]); PutGetBE(b[16..20]); PutGetBE(b[20..24]); PutGetBE(b[24..28]);
    PutGetBE(b[28..36]); PutGetBE(b[36..44]);
    Widths();
    GetBEBound(b[28..36]); GetBEBound(b[36..44]);
    Int64Low(GetBE(b[28..36]));
    Int64Low(GetBE(b[36..44]));
    PutBEMod(p.blockOffset, GetBE(b[28..36]), 8);
    PutBEMod(p.fileSize, GetBE(b[36..44]), 8);
    GlueTwelve(b);
  }

  lemma Int64Low(u: nat)
    requires u < 0x1_0000_0000_0000_0000
    ensures AsInt64(u) % 0x1_0000_0000_0000_0000 == u
  {
  }

  lemma GlueTwelve(b: Data)
    requires |b| >= 44
    ensures b[..44] == b[0..4] + ([b[4]] + ([b[5]] + (b[6..8] + (b[8..10] + (b[10..12] + (b[12..16] +
      (b[16..20] + (b[20..24] + (b[24..28] + (b[28..36] + b[36..44]))))))))))
  {
    assert b[28..44] == b[28..36] + b[36..44];
    assert b[24..44] == b[24..28] + b[28..44];
    assert b[20..44] == b[20..24] + b[24..44];
    assert b[16..44] == b[16..20] + b[20..44];
    assert b[12..44] == b[12..16] + b[16..44];
    assert b[10..44] == b[10..12] + b[12..44];
    assert b[8..44] == b[8..10] + b[10..44];
    assert b[6..44] == b[6..8] + b[8..44];
    assert b[5..44] == [b[5]] + b[6..44];
    assert b[4..44] == [b[4]] + b[5..44];
    assert b[..44] == b[0..4] + b[4..44];
  }

  // ---- the format, byte by byte ----

  function Two(x: int): Data { [x / 0x100 % 0x100, x % 0x100] }

  function Four(x: int): Data { Two(x / 0x1_0000) + Two(x) }

  function Eight(x: int): Data { Four(x / 0x1_0000_0000) + Four(x) }

  lemma WordsMean(x: int)
    ensures PutBE(x, 2) == Two(x) && PutBE(x, 4) == Four(x) && PutBE(x, 8) == Eight(x)
  {
    TwoMean(x);
    FourMean(x);
    FourMean(x / 0x1_0000_0000);
    assert x / 0x1_0000 / 0x1_0000 == x / 0x1_0000_0000;
    BothHalves(x, 4);
  }

  lemma TwoMean(x: int)
    ensures PutBE(x, 2) == Two(x)
  {
    assert PutBE(x, 2) == PutBE(x / 256, 1) + [x % 256] && PutBE(x / 256, 1) == PutBE(x / 256 / 256, 0) + [x / 256 % 256];
  }

  lemma FourMean(x: int)
    ensures PutBE(x, 4) == Four(x)
  {
    TwoMean(x);
    TwoMean(x / 0x1_0000);
    BothHalves(x, 2);
  }

  /** The upper half of a word comes first. */
  lemma {:induction false} BothHalves(x: int, n: nat)
    requires n == 2 || n == 4
    ensures PutBE(x, 2 * n) == PutBE(x / (if n == 2 then 0x1_0000 else 0x1_0000_0000), n) + PutBE(x, n)
  {
    Shifted(x, n, n);
    Widths();
  }

  lemma {:induction false} Shifted(x: int, m: nat, n: nat)
    ensures PutBE(x, m + n) == PutBE(x / Pow256(n), m) + PutBE(x, n)
    decreases n
  {
    if n > 0 {
      Shifted(x / 256, m, n - 1);
      DivTwice(x, Pow256(n - 1));
      var high, low := PutBE(x / Pow256(n), m), PutBE(x / 256, n - 1);
      assert PutBE(x, m + n) == high + low + [x % 256];
    } else {
      assert x / 1 == x && PutBE(x, m) + [] == PutBE(x, m);
    }
  }

  lemma DivTwice(x: int, m: nat)
    requires m > 0
    ensures x / 256 / m == x / (256 * m)
  {
    var y := x / 256;
    var q := y / m;
    assert x == 256 * y + x % 256 && y == m * q + y % m;
    var r := 256 * (y % m) + x % 256;
    assert 256 * (m * q) == (256 * m) * q;
    assert x == (256 * m) * q + r && 0 <= r < 256 * m;
    ModUnique(x, 256 * m, q, r);
    QuotientUnique(x, 256 * m, q, r);
  }

  lemma QuotientUnique(x: int, m: nat, q: int, r: nat)
    requires m > 0 && x == m * q + r && r < m && x % m == r
    ensures x / m == q
  {
    assert m * (x / m) == m * q;
  }

  /** Where a datagram has what, in network byte order. */
  lemma LayoutMeans(crc: Data -> u32, p: Packet)
    requires Typed(p) && NameOk(p.name)
    ensures var b := Datagram(crc, p);
      && |b| == 224 + |p.shard| && b[..4] == [0x41, 0x47, 0x44, 0x31] && b[4] == 1 && b[5] == |p.name|
      && b[6..8] == Two(p.dataShards) && b[8..10] == Two(p.parityShards) && b[10..12] == Two(p.shardIndex)
      && b[12..16] == Four(p.blockIndex) && b[16..20] == Four(p.blockCount)
      && b[20..24] == Four(p.shardSize) && b[24..28] == Four(p.blockLen)
      && b[28..36] == Eight(p.blockOffset) && b[36..44] == Eight(p.fileSize)
      && b[44..60] == p.transferID && b[60..92] == p.sha256 && b[92..92 + |p.name|] == p.name
      && (forall i | 92 + |p.name| <= i < 220 :: b[i] == 0)
      && b[220..224] == Four(crc(b[..220] + b[224..])) && b[224..] == p.shard
  {
    hide Body, Fixed, Datagram, PutBE, Two, Four, Eight;
    var b := Datagram(crc, p);
    DatagramFields(crc, p);
    var tail :| b == Fixed(p) + tail;
    FixedFields(p, b, tail);
    assert b[4] == b[4..5][0] && b[5] == b[5..6][0] && b[..4] == b[0..4];
    WordsMean(p.dataShards);
    WordsMean(p.parityShards);
    WordsMean(p.shardIndex);
    WordsMean(p.blockIndex);
    WordsMean(p.blockCount);
    WordsMean(p.shardSize);
    WordsMean(p.blockLen);
    WordsMean(p.blockOffset);
    WordsMean(p.fileSize);
    WordsMean(crc(Covered(b)));
    WordsMean(MAGIC);
    MagicMeans();
    forall i | 92 + |p.name| <= i < 220 ensures b[i] == 0 {
      assert b[i] == b[92 + |p.name|..220][i - 92 - |p.name|];
    }
  }

  lemma MagicMeans()
    ensures Four(MAGIC) == [0x41, 0x47, 0x44, 0x31]
  {
  }
}
