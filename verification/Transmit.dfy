/** sendDiodeFile and the buffers it fills in place. */
module Transmit {
  import opened Bytes
  import opened Library
  import opened Sender
  import Wire

  /** Writes data into the buffer at an offset. */
  method Put(b: array<u8>, at: nat, data: Data)
    requires at + |data| <= b.Length
    modifies b
    ensures b[..at] == old(b[..at]) && b[at..at + |data|] == data
    ensures forall j | at + |data| <= j < b.Length :: b[j] == old(b[j])
  {
    for i := 0 to |data|
      invariant b[..at] == old(b[..at])
      invariant forall j | 0 <= j < i :: b[at + j] == data[j]
      invariant forall j | at + |data| <= j < b.Length :: b[j] == old(b[j])
    {
      b[at + i] := data[i];
    }
  }

  /** Writes the next header field; rest is what is still to come. */
  method PutField(b: array<u8>, at: nat, data: Data, ghost rest: Data, ghost whole: Data)
    requires at + |data| <= b.Length && b[..at] + (data + rest) == whole
    modifies b
    ensures b[..at + |data|] + rest == whole
    ensures forall j | at + |data| <= j < b.Length :: b[j] == old(b[j])
  {
    Put(b, at, data);
    assert b[..at + |data|] == b[..at] + b[at..at + |data|];
    Wire.Assoc(b[..at], data, rest);
  }

  method PutFixed(b: array<u8>, p: Wire.Packet)
    requires b.Length >= Wire.HEADER_SIZE && Wire.NameOk(p.name)
    modifies b
    ensures b[..44] == Wire.Fixed(p) && forall j | 44 <= j < b.Length :: b[j] == old(b[j])
  {
    hide Wire.Fixed, PutBE;
    ghost var whole := Wire.Fixed(p);
    ghost var r11: Data := [];
    ghost var r10 := PutBE(p.fileSize, 8) + r11;
    ghost var r9 := PutBE(p.blockOffset, 8) + r10;
    ghost var r8 := PutBE(p.blockLen, 4) + r9;
    ghost var r7 := PutBE(p.shardSize, 4) + r8;
    ghost var r6 := PutBE(p.blockCount, 4) + r7;
    ghost var r5 := PutBE(p.blockIndex, 4) + r6;
    ghost var r4 := PutBE(p.shardIndex, 2) + r5;
    ghost var r3 := PutBE(p.parityShards, 2) + r4;
    ghost var r2 := PutBE(p.dataShards, 2) + r3;
    ghost var r1 := [|p.name|] + r2;
    ghost var r0 := [Wire.VERSION] + r1;
    FixedNested(p);
    PutField(b, 0, PutBE(Wire.MAGIC, 4), r0, whole);
    PutField(b, 4, [Wire.VERSION], r1, whole);
    PutField(b, 5, [|p.name|], r2, whole);
    PutField(b, 6, PutBE(p.dataShards, 2), r3, whole);
    PutField(b, 8, PutBE(p.parityShards, 2), r4, whole);
    PutField(b, 10, PutBE(p.shardIndex, 2), r5, whole);
    PutField(b, 12, PutBE(p.blockIndex, 4), r6, whole);
    PutField(b, 16, PutBE(p.blockCount, 4), r7, whole);
    PutField(b, 20, PutBE(p.shardSize, 4), r8, whole);
    PutField(b, 24, PutBE(p.blockLen, 4), r9, whole);
    PutField(b, 28, PutBE(p.blockOffset, 8), r10, whole);
    PutField(b, 36, PutBE(p.fileSize, 8), r11, whole);
    assert b[..44] + [] == b[..44];
  }

  lemma FixedNested(p: Wire.Packet)
    requires Wire.NameOk(p.name)
    ensures Wire.Fixed(p) == PutBE(Wire.MAGIC, 4) + ([Wire.VERSION] + ([|p.name|] +
      (PutBE(p.dataShards, 2) + (PutBE(p.parityShards, 2) + (PutBE(p.shardIndex, 2) +
      (PutBE(p.blockIndex, 4) + (PutBE(p.blockCount, 4) + (PutBE(p.shardSize, 4) + (PutBE(p.blockLen, 4) +
      (PutBE(p.blockOffset, 8) + (PutBE(p.fileSize, 8) + [])))))))))))
  {
    hide PutBE;
    assert PutBE(p.fileSize, 8) + [] == PutBE(p.fileSize, 8);
  }

  method PutHeader(b: array<u8>, p: Wire.Packet)
    requires b.Length >= Wire.HEADER_SIZE && Wire.Typed(p) && Wire.NameOk(p.name)
    requires forall j | 0 <= j < Wire.HEADER_SIZE :: b[j] == 0
    modifies b
    ensures b[..Wire.CRC_OFFSET] == Wire.Body(p)
    ensures forall j | Wire.CRC_OFFSET <= j < b.Length :: b[j] == old(b[j])
  {
    hide Wire.Fixed;
    PutFixed(b, p);
    Put(b, 44, p.transferID);
    assert b[..44] == Wire.Fixed(p);
    Put(b, 60, p.sha256);
    assert b[..44] == b[..60][..44] && b[44..60] == b[..60][44..60];
    ghost var m := b[..92];
    Put(b, 92, p.name);
    ghost var n := 92 + |p.name|;
    ghost var s := b[..];
    assert s[..92] == m;
    assert s[..44] == m[..44] && s[44..60] == m[44..60] && s[60..92] == m[60..92];
    assert s[n..Wire.CRC_OFFSET] == Zeros(Wire.NAME_MAX - |p.name|);
    assert s[..44] == Wire.Fixed(p) && s[44..60] == p.transferID && s[60..92] == p.sha256 && s[92..n] == p.name;
    assert s[..Wire.CRC_OFFSET] == s[..44] + (s[44..60] + (s[60..92] + (s[92..n] + s[n..Wire.CRC_OFFSET])));
  }

  /** marshalDiodePacket: fills dst, or a new buffer when dst is too small, and returns how much of
      it is the datagram. The previous packet's bytes in a reused buffer leave no trace. */
  method Marshal(crc: Data -> u32, dst: array<u8>, p: Wire.Packet) returns (ok: bool, b: array<u8>, n: nat)
    requires Wire.Typed(p)
    modifies dst
    ensures ok <==> Wire.NameOk(p.name)
    ensures b == dst || fresh(b)
    ensures ok ==> n <= b.Length && b[..n] == Wire.Datagram(crc, p)
    ensures !ok ==> b == dst && dst[..] == old(dst[..])
  {
    hide Wire.Body, Wire.Typed, PutBE;
    b := dst;
    if !Wire.NameOk(p.name) {
      return false, dst, 0;
    }
    n := Wire.HEADER_SIZE + |p.shard|;
    if dst.Length < n {
      b := new u8[n];
    }
    Put(b, 0, Zeros(Wire.HEADER_SIZE));
    assert forall j | 0 <= j < Wire.HEADER_SIZE :: b[j] == b[0..Wire.HEADER_SIZE][j];
    PutHeader(b, p);
    Put(b, Wire.HEADER_SIZE, p.shard);
    assert b[..Wire.CRC_OFFSET] == Wire.Body(p);
    assert b[Wire.HEADER_SIZE..n] == p.shard;
    assert Wire.Covered(b[..n]) == Wire.Body(p) + p.shard;
    Put(b, Wire.CRC_OFFSET, PutBE(crc(Wire.Covered(b[..n])), 4));
    assert b[..n] == b[..Wire.CRC_OFFSET] + (b[Wire.CRC_OFFSET..Wire.HEADER_SIZE] + b[Wire.HEADER_SIZE..n]);
    ok := true;
  }

  /** Copies one shard's worth of the block into the backing buffer. */
  method CopyShard(backing: array<u8>, data: Data, at: nat, n: nat)
    requires at + n <= |data| && at + n <= backing.Length
    requires forall j | 0 <= j < at :: backing[j] == data[j]
    modifies backing
    ensures forall j | 0 <= j < at + n :: backing[j] == data[j]
    ensures forall j | at + n <= j < backing.Length :: backing[j] == old(backing[j])
  {
    for k := 0 to n
      invariant forall j | 0 <= j < at + k :: backing[j] == data[j]
      invariant forall j | at + k <= j < backing.Length :: backing[j] == old(backing[j])
    {
      backing[at + k] := data[at + k];
    }
  }

  /** splitDiodeBlock: cuts a block into zero-padded shards of one zeroed backing buffer, copying the
      block shard by shard. The parity shards are left zero for the encoder to fill. */
  method SplitBlock(data: Data, d: nat, p: nat) returns (shards: seq<Data>, shardSize: nat)
    requires d >= 1 && |data| <= d * ShardSizeFor(|data|, d)
    ensures shardSize == ShardSizeFor(|data|, d)
    ensures shards == Shards(Padded(data, d, shardSize), d, shardSize) + seq(p, _ => Zeros(shardSize))
  {
    hide ShardSizeFor, Shards;
    shardSize := ShardSizeFor(|data|, d);
    SplitSizes(d, p, shardSize);
    var backing := new u8[(d + p) * shardSize](_ => 0);
    var i, copied := 0, 0;
    while i < d && copied < |data|
      invariant i <= d && copied == Min(i * shardSize, |data|)
      invariant forall j | 0 <= j < copied :: backing[j] == data[j]
      invariant forall j | copied <= j < backing.Length :: backing[j] == 0
    {
      MulNext(i, shardSize);
      ShardWithin(i, d, shardSize);
      var n := Min(shardSize, |data| - copied);
      CopyShard(backing, data, copied, n);
      copied := copied + n;
      i := i + 1;
    }
    shards := CutShards(data, d, p, shardSize, backing[..]);
  }

  method CutShards(data: Data, d: nat, p: nat, n: nat, backing: Data) returns (shards: seq<Data>)
    requires |data| <= d * n <= |backing| == (d + p) * n && backing[..|data|] == data
    requires forall j | |data| <= j < |backing| :: backing[j] == 0
    ensures shards == Shards(Padded(data, d, n), d, n) + seq(p, _ => Zeros(n))
  {
    hide Shards;
    ghost var padded := Padded(data, d, n);
    assert backing[..d * n] == padded;
    var total := d + p;
    shards := [];
    var i := 0;
    while i < total
      invariant i <= total && |shards| == i
      invariant forall j | 0 <= j < i :: shards[j] == if j < d then Shards(padded, d, n)[j] else Zeros(n)
    {
      ShardWithin(i, total, n);
      ghost var lo, hi := i * n, (i + 1) * n;
      if i < d {
        ShardAt(padded, d, n, i);
        SliceOfPrefix(backing, d * n, lo, hi);
      } else {
        MulLe(d, i, n);
        assert backing[lo..hi] == Zeros(n);
      }
      shards := shards + [backing[i * n..(i + 1) * n]];
      i := i + 1;
    }
  }

  lemma SliceOfPrefix(s: Data, m: nat, lo: nat, hi: nat)
    requires lo <= hi <= m <= |s|
    ensures s[..m][lo..hi] == s[lo..hi]
  {
  }

  lemma SplitSizes(d: nat, p: nat, n: nat)
    ensures 0 <= d * n <= (d + p) * n
  {
    MulLe(d, d + p, n);
  }

  lemma ShardAt(block: Data, d: nat, n: nat, i: nat)
    requires |block| == d * n && i < d
    ensures 0 <= i * n <= (i + 1) * n <= |block|
    ensures Shards(block, d, n)[i] == block[i * n..(i + 1) * n]
  {
    ShardWithin(i, d, n);
  }

  /** What the reader holds, as long as the announced file: a short source is extended with zeros
      that are never sent. */
  ghost function Source(r: Data, size: nat): (src: Data)
    ensures |src| == size
  {
    if |r| >= size then r[..size] else r + Zeros(size - |r|)
  }

  /** The fields whose Go types are fixed, and sizes whose rounding up does not wrap int64. */
  predicate Announced(meta: FileMeta, pl: Plan)
  {
    && Valid(pl) && |meta.transferID| == 16 && |meta.sha256| == 32
    && Wire.IsInt64(meta.fileSize) && Wire.IsInt64(meta.fileSize + BlockData(pl) - 1)
  }

  /** Emits the shards of one block, until one is refused. */
  method SendBlock(lib: Lib, ghost meta: FileMeta, ghost pl: Plan, ghost src: Data, ghost b: nat,
                   head: Wire.Packet, shards: seq<Data>, dst: array<u8>, emitOk: nat -> bool, already: nat)
    returns (err: Option<SendError>, sent: seq<Data>, out: array<u8>)
    requires Sendable(meta, pl, src) && Wire.IsInt64(meta.fileSize)
    requires b < BlockCount(pl, |src|) && CodeOk(lib, pl, src, b) && shards == Code(lib, pl, src, b)
    requires head == PacketAt(lib, meta, pl, src, b, 0)
    modifies dst
    ensures out == dst || fresh(out)
    ensures |sent| <= Total(pl) && sent == BlockDatagrams(lib, meta, pl, src, b, |sent|)
    ensures err.None? ==> |sent| == Total(pl)
    ensures err.Some? ==> err == Some(EmitFailed) && |sent| < Total(pl) && !emitOk(already + |sent|)
  {
    hide BlockCount, Code, CodeOk, Wire.Datagram, Wire.Validate;
    sent, out := [], dst;
    CodeShape(lib, pl, src, b);
    var si := 0;
    while si < |shards|
      invariant out == dst || fresh(out)
      invariant si <= |shards| && |sent| == si && sent == BlockDatagrams(lib, meta, pl, src, b, si)
    {
      var pkt := head.(shardIndex := si, shard := shards[si]);
      PacketValid(lib, meta, pl, src, b, si);
      assert pkt == PacketAt(lib, meta, pl, src, b, si);
      var ok, buf, n := Marshal(lib.crc, out, pkt);
      out := buf;
      if !emitOk(already + si) {
        return Some(EmitFailed), sent, out;
      }
      sent := sent + [buf[..n]];
      si := si + 1;
    }
    err := None;
  }

  lemma CodeShape(lib: Lib, pl: Plan, src: Data, b: nat)
    requires Valid(pl) && 1 <= |src| && b < BlockCount(pl, |src|) && CodeOk(lib, pl, src, b)
    ensures |Code(lib, pl, src, b)| == Total(pl)
    ensures forall i | 0 <= i < Total(pl) :: |Code(lib, pl, src, b)[i]| == ShardSize(pl, |src|, b)
  {
  }

  /** Splits and encodes one block; it fails when the library returns misshaped parity. */
  method EncodeBlock(lib: Lib, block: Data, pl: Plan, ghost src: Data, ghost b: nat)
    returns (ok: bool, code: seq<Data>, shardSize: nat)
    requires Valid(pl) && 1 <= |src| && b < BlockCount(pl, |src|) && block == Block(pl, src, b)
    ensures ok <==> CodeOk(lib, pl, src, b)
    ensures ok ==> shardSize == ShardSize(pl, |src|, b) && code == Code(lib, pl, src, b)
  {
    hide BlockCount, CodeOk, Code, BlockData, DataShards, ShardSize, BlockLen, Block;
    BlockSizes(pl, src, b);
    var split, n := SplitBlock(block, pl.dataShards, pl.parityShards);
    shardSize := n;
    var data := split[..pl.dataShards];
    var parity := lib.encode(pl.dataShards, pl.parityShards, data);
    CodeIs(lib, pl, src, b, data, shardSize);
    ok, code := Shaped(parity, pl.parityShards, shardSize), data + parity;
  }

  /** One round of the sending loop: reads, splits, encodes and emits block b. */
  method SendNext(lib: Lib, r: Data, meta: FileMeta, pl: Plan, b: nat, offset: nat, dst: array<u8>,
                  emitOk: nat -> bool, already: nat)
    returns (err: Option<SendError>, part: seq<Data>, len: nat, out: array<u8>)
    requires Announced(meta, pl) && meta.fileSize >= 1
    requires b < BlockCount(pl, meta.fileSize) <= Wire.MAX_BLOCK_COUNT
    requires offset == Offset(pl, b) && offset <= |r|
    modifies dst
    ensures out == dst || fresh(out)
    ensures len == BlockLen(pl, meta.fileSize, b)
    ensures var src := Source(r, meta.fileSize);
      match err
      case None => Wire.NameOk(meta.name) && offset + len <= |r| && CodeOk(lib, pl, src, b) &&
        part == BlockDatagrams(lib, meta, pl, src, b, Total(pl))
      case Some(EmitFailed) => Wire.NameOk(meta.name) && CodeOk(lib, pl, src, b) && |part| < Total(pl) &&
        part == BlockDatagrams(lib, meta, pl, src, b, |part|) && !emitOk(already + |part|)
      case Some(ReadFailed) => part == [] && |r| < meta.fileSize
      case Some(EncodeFailed) => part == [] && !CodeOk(lib, pl, src, b)
      case Some(BadName) => part == [] && !Wire.NameOk(meta.name)
      case Some(_) => false
  {
    hide BlockCount, CodeOk, Code, BlockData, BlockDatagrams, Wire.NameOk, ShardSize, BlockLen, Offset, Block;
    part, out := [], dst;
    ghost var src := Source(r, meta.fileSize);
    NextOffset(pl, meta.fileSize, b);
    len := Min(BlockData(pl), meta.fileSize - offset);
    if offset + len > |r| {
      return Some(ReadFailed), part, len, out;
    }
    BlockIs(pl, r, meta.fileSize, b, offset, len);
    var ok, code, shardSize := EncodeBlock(lib, r[offset..offset + len], pl, src, b);
    if !ok {
      return Some(EncodeFailed), part, len, out;
    }
    // The first marshalDiodePacket of the file refuses a name the header cannot hold.
    if !Wire.NameOk(meta.name) {
      return Some(BadName), part, len, out;
    }
    CodeShape(lib, pl, src, b);
    var head := Wire.Packet(
      meta.transferID, meta.sha256, meta.name, meta.fileSize, BlockCount(pl, meta.fileSize), b, offset, len,
      shardSize, pl.dataShards, pl.parityShards, 0, code[0]);
    assert head == PacketAt(lib, meta, pl, src, b, 0);
    err, part, out := SendBlock(lib, meta, pl, src, b, head, code, out, emitOk, already);
  }

  /** What is sent of a file is a prefix of its transmission. */
  ghost predicate IsPrefix(lib: Lib, meta: FileMeta, pl: Plan, src: Data, sent: seq<Data>)
  {
    Sendable(meta, pl, src) && Wire.IsInt64(meta.fileSize) && Encodes(lib, pl, src, BlockCount(pl, |src|)) ==>
      sent <= Emission(lib, meta, pl, src, BlockCount(pl, |src|))
  }

  /** All of the file's transmission was sent. */
  ghost predicate IsComplete(lib: Lib, meta: FileMeta, pl: Plan, src: Data, sent: seq<Data>)
  {
    && Sendable(meta, pl, src) && Wire.IsInt64(meta.fileSize) && Encodes(lib, pl, src, BlockCount(pl, |src|))
    && sent == Emission(lib, meta, pl, src, BlockCount(pl, |src|))
  }

  /** sendDiodeFile over a reader holding r; emitOk says which datagrams the socket accepts. It sends
      exactly the transmission of the file, or stops at the first failure with a prefix of it. */
  method SendDiodeFile(lib: Lib, r: Data, meta: FileMeta, pl: Plan, emitOk: nat -> bool)
    returns (err: Option<SendError>, sent: seq<Data>)
    requires Announced(meta, pl)
    ensures err == Some(Empty) <==> meta.fileSize < 1
    ensures err == Some(TooManyBlocks) <==>
      meta.fileSize >= 1 && BlockCount(pl, meta.fileSize) > Wire.MAX_BLOCK_COUNT
    ensures err == Some(BadName) ==> !Wire.NameOk(meta.name)
    ensures err == Some(ReadFailed) ==> |r| < meta.fileSize
    ensures err == Some(EncodeFailed) ==>
      exists b: nat :: b < BlockCount(pl, meta.fileSize) && !CodeOk(lib, pl, Source(r, meta.fileSize), b)
    ensures err == Some(EmitFailed) ==> !emitOk(|sent|)
    ensures err.Some? && meta.fileSize >= 1 ==> IsPrefix(lib, meta, pl, Source(r, meta.fileSize), sent)
    ensures err.None? ==>
      1 <= meta.fileSize <= |r| && IsComplete(lib, meta, pl, r[..meta.fileSize], sent)
  {
    hide BlockCount, CodeOk, Emission, BlockDatagrams, BlockData, Wire.NameOk, BlockLen, Offset, Total;
    sent := [];
    if meta.fileSize < 1 {
      return Some(Empty), sent;
    }
    var blockCount := (meta.fileSize + BlockData(pl) - 1) / BlockData(pl);
    BlockCountIs(pl, meta.fileSize);
    if blockCount > Wire.MAX_BLOCK_COUNT {
      return Some(TooManyBlocks), sent;
    }
    ghost var src := Source(r, meta.fileSize);
    var out := new u8[Wire.HEADER_SIZE + pl.shardSize];
    var offset, bi := 0, 0;
    OffsetZero(pl);
    while bi < blockCount
      invariant bi <= blockCount && offset == Min(Offset(pl, bi), meta.fileSize)
      invariant 0 <= offset <= |r| && (bi == blockCount ==> offset == meta.fileSize)
      invariant fresh(out)
      invariant bi > 0 ==> Wire.NameOk(meta.name)
      invariant Encodes(lib, pl, src, bi)
      invariant if Wire.NameOk(meta.name) then sent == Emission(lib, meta, pl, src, bi) else sent == []
    {
      NextOffset(pl, meta.fileSize, bi);
      var failed, part, len, buf := SendNext(lib, r, meta, pl, bi, offset, out, emitOk, |sent|);
      out := buf;
      if failed.Some? {
        FailedPrefix(lib, meta, pl, src, bi, sent, part);
        sent := sent + part;
        return failed, sent;
      }
      EmissionGrows(lib, meta, pl, src, bi);
      sent := sent + part;
      offset := offset + len;
      bi := bi + 1;
    }
    err := None;
  }

  lemma FailedPrefix(lib: Lib, meta: FileMeta, pl: Plan, src: Data, n: nat, sent: seq<Data>, part: seq<Data>)
    requires Announced(meta, pl) && meta.fileSize >= 1 && |src| == meta.fileSize
    requires n < BlockCount(pl, |src|) <= Wire.MAX_BLOCK_COUNT && Encodes(lib, pl, src, n)
    requires if Wire.NameOk(meta.name) then sent == Emission(lib, meta, pl, src, n) else sent == []
    requires part == [] || (Wire.NameOk(meta.name) && CodeOk(lib, pl, src, n) && |part| <= Total(pl)
                            && part == BlockDatagrams(lib, meta, pl, src, n, |part|))
    ensures IsPrefix(lib, meta, pl, src, sent + part)
  {
    hide BlockCount, CodeOk, Emission, BlockDatagrams, BlockData, Wire.NameOk, Total;
    if Wire.NameOk(meta.name) {
      SentIsPrefix(lib, meta, pl, src, n);
      if part != [] {
        PartIsPrefix(lib, meta, pl, src, n, |part|);
      } else {
        assert sent + part == sent;
      }
    }
  }

  lemma BlockCountIs(pl: Plan, size: nat)
    requires Valid(pl) && size >= 1
    ensures (size + BlockData(pl) - 1) / BlockData(pl) == BlockCount(pl, size) && BlockCount(pl, size) >= 1
  {
    BlocksWithinSize(pl, size);
  }

  lemma BlockIs(pl: Plan, r: Data, size: nat, b: nat, offset: nat, len: nat)
    requires Valid(pl) && size >= 1 && b < BlockCount(pl, size)
    requires offset == Offset(pl, b) && len == BlockLen(pl, size, b) && offset + len <= |r|
    ensures r[offset..offset + len] == Block(pl, Source(r, size), b)
  {
    Tiling(pl, size, b);
  }

  lemma BlockSizes(pl: Plan, src: Data, b: nat)
    requires Valid(pl) && 1 <= |src| && b < BlockCount(pl, |src|)
    ensures var len := |Block(pl, src, b)|;
      && len <= pl.dataShards * ShardSizeFor(len, pl.dataShards)
      && ShardSizeFor(len, pl.dataShards) == ShardSize(pl, |src|, b)
  {
    Tiling(pl, |src|, b);
    ShardSizeFits(BlockLen(pl, |src|, b), pl.dataShards, pl.shardSize);
  }

  lemma CodeIs(lib: Lib, pl: Plan, src: Data, b: nat, data: seq<Data>, n: nat)
    requires Valid(pl) && 1 <= |src| && b < BlockCount(pl, |src|) && n == ShardSize(pl, |src|, b)
    requires |Block(pl, src, b)| <= pl.dataShards * n
    requires data == Shards(Padded(Block(pl, src, b), pl.dataShards, n), pl.dataShards, n)
    ensures |data| == pl.dataShards
    ensures var parity := lib.encode(pl.dataShards, pl.parityShards, data);
      && Code(lib, pl, src, b) == data + parity
      && (CodeOk(lib, pl, src, b) <==> Shaped(parity, pl.parityShards, n))
  {
    var parity := lib.encode(pl.dataShards, pl.parityShards, data);
    assert Shaped(data, pl.dataShards, n);
    assert forall i | 0 <= i < |parity| :: (data + parity)[pl.dataShards + i] == parity[i];
  }

  lemma SentIsPrefix(lib: Lib, meta: FileMeta, pl: Plan, src: Data, n: nat)
    requires Sendable(meta, pl, src) && Wire.IsInt64(meta.fileSize)
    requires n <= BlockCount(pl, |src|) && Encodes(lib, pl, src, n)
    ensures Encodes(lib, pl, src, BlockCount(pl, |src|)) ==>
      Emission(lib, meta, pl, src, n) <= Emission(lib, meta, pl, src, BlockCount(pl, |src|))
  {
    hide BlockCount, CodeOk, Nth, Total;
    var count, t := BlockCount(pl, |src|), Total(pl);
    MulLe(n, count, t);
    if Encodes(lib, pl, src, count) {
      var part, all := Emission(lib, meta, pl, src, n), Emission(lib, meta, pl, src, count);
      forall k | 0 <= k < |part| ensures part[k] == all[k] {
        SameNth(lib, meta, pl, src, n, count, k);
      }
    }
  }

  lemma SameNth(lib: Lib, meta: FileMeta, pl: Plan, src: Data, n: nat, m: nat, k: nat)
    requires Sendable(meta, pl, src) && Wire.IsInt64(meta.fileSize)
    requires n <= m <= BlockCount(pl, |src|) && Encodes(lib, pl, src, n) && Encodes(lib, pl, src, m)
    requires k < n * Total(pl) && k < m * Total(pl)
    ensures Nth(lib, meta, pl, src, n, k) == Nth(lib, meta, pl, src, m, k)
  {
    hide BlockCount, CodeOk, Total, DatagramAt;
  }

  lemma PartIsPrefix(lib: Lib, meta: FileMeta, pl: Plan, src: Data, n: nat, k: nat)
    requires Sendable(meta, pl, src) && Wire.IsInt64(meta.fileSize)
    requires n < BlockCount(pl, |src|) && Encodes(lib, pl, src, n + 1) && k <= Total(pl)
    ensures CodeOk(lib, pl, src, n)
    ensures Encodes(lib, pl, src, BlockCount(pl, |src|)) ==>
      Emission(lib, meta, pl, src, n) + BlockDatagrams(lib, meta, pl, src, n, k)
        <= Emission(lib, meta, pl, src, BlockCount(pl, |src|))
  {
    hide BlockCount, CodeOk, Nth, Total, DatagramAt, Emission;
    EncodesAt(lib, pl, src, n + 1, n);
    SentIsPrefix(lib, meta, pl, src, n + 1);
    EmissionGrows(lib, meta, pl, src, n);
    assert BlockDatagrams(lib, meta, pl, src, n, k) <= BlockDatagrams(lib, meta, pl, src, n, Total(pl));
  }

  lemma OffsetZero(pl: Plan)
    requires Valid(pl)
    ensures Offset(pl, 0) == 0
  {
  }

  lemma NextOffset(pl: Plan, size: nat, b: nat)
    requires Valid(pl) && 1 <= size && b < BlockCount(pl, size)
    ensures 0 <= Offset(pl, b) < size
    ensures BlockLen(pl, size, b) == Min(BlockData(pl), size - Offset(pl, b))
    ensures Offset(pl, b) + BlockLen(pl, size, b) == Min(Offset(pl, b + 1), size)
    ensures b + 1 == BlockCount(pl, size) ==> Offset(pl, b) + BlockLen(pl, size, b) == size
  {
    OffsetBound(pl, size, b);
    MulNext(b, BlockData(pl));
    Tiling(pl, size, b);
  }
}
