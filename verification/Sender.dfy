/** The low side: cutting a file into Reed-Solomon blocks and those into datagrams. */
module Sender {
  import opened Bytes
  import opened Library
  import Wire

  const IP_UDP_OVERHEAD := 48

  datatype Plan = Plan(dataShards: int, parityShards: int, shardSize: int)

  datatype FileMeta = FileMeta(transferID: Data, sha256: Data, name: Data, fileSize: int)

  datatype SendError = Empty | TooManyBlocks | ReadFailed | EncodeFailed | BadName | EmitFailed

  /** newDiodePlan, or nothing for an invalid geometry or too small an MTU. */
  function NewPlan(mtu: int, dataShards: int, parityShards: int): Option<Plan>
  {
    if dataShards < 1 || parityShards < 1 || dataShards + parityShards > Wire.MAX_TOTAL_SHARDS then None
    else
      var size := mtu - IP_UDP_OVERHEAD - Wire.HEADER_SIZE;
      if size < 128 then None
      else Some(Plan(dataShards, parityShards, Min(size, Wire.MAX_SHARD_SIZE)))
  }

  /** The plans newDiodePlan returns. */
  predicate Valid(pl: Plan)
  {
    && pl.dataShards >= 1 && pl.parityShards >= 1 && pl.dataShards + pl.parityShards <= Wire.MAX_TOTAL_SHARDS
    && 128 <= pl.shardSize <= Wire.MAX_SHARD_SIZE
  }

  function Total(pl: Plan): (t: nat) requires Valid(pl) ensures 2 <= t <= 256 { pl.dataShards + pl.parityShards }

  function BlockData(pl: Plan): (n: nat)
    requires Valid(pl)
    ensures 128 <= n <= 15_360_000
  {
    Wire.ShardsFit(pl.dataShards, pl.shardSize);
    assert (pl.dataShards - 1) * pl.shardSize >= 0;
    pl.dataShards * pl.shardSize
  }

  function BlockCount(pl: Plan, size: nat): nat
    requires Valid(pl)
  {
    CeilDiv(size, BlockData(pl))
  }

  /** packetCount. */
  function PacketCount(pl: Plan, size: nat): nat
    requires Valid(pl)
  {
    Max(BlockCount(pl, size), 1) * Total(pl)
  }

  /** There is a plan exactly for one to 255 shards of each kind, 256 at most together, and an MTU of at least
      400; a shard is what the headers of 48 and 224 bytes leave of the MTU, up to 60000 bytes. */
  lemma PlanMeans(mtu: int, dataShards: int, parityShards: int)
    ensures var pl := NewPlan(mtu, dataShards, parityShards);
      && (pl.Some? <==> 1 <= dataShards && 1 <= parityShards && dataShards + parityShards <= 256 && 400 <= mtu)
      && (pl.Some? ==> pl.value == Plan(dataShards, parityShards, if mtu <= 60272 then mtu - 272 else 60000))
  {
  }

  lemma PlansAreValid(mtu: int, dataShards: int, parityShards: int)
    ensures var pl := NewPlan(mtu, dataShards, parityShards);
      pl.Some? ==>
        && Valid(pl.value)
        && (mtu <= 60272 ==> IP_UDP_OVERHEAD + Wire.HEADER_SIZE + pl.value.shardSize == mtu)
  {
  }

  // ---- the tiling of a file by its blocks ----

  function Offset(pl: Plan, b: nat): nat
    requires Valid(pl)
  {
    b * BlockData(pl)
  }

  function BlockLen(pl: Plan, size: nat, b: nat): int
    requires Valid(pl)
  {
    Min(BlockData(pl), size - Offset(pl, b))
  }

  lemma DivBounds(a: nat, b: nat)
    requires b > 0
    ensures b * (a / b) <= a < b * (a / b) + b
  {
  }

  /** Block b starts inside the file exactly when it is one of the blocks; the blocks follow one
      another without gap or overlap, and the last one ends with the file. */
  lemma Tiling(pl: Plan, size: nat, b: nat)
    requires Valid(pl) && size >= 1
    ensures b < BlockCount(pl, size) <==> Offset(pl, b) < size
    ensures b < BlockCount(pl, size) ==>
      1 <= BlockLen(pl, size, b) <= BlockData(pl) && Offset(pl, b) + BlockLen(pl, size, b) <= size
    ensures b + 1 < BlockCount(pl, size) ==> Offset(pl, b) + BlockLen(pl, size, b) == Offset(pl, b + 1)
    ensures b + 1 == BlockCount(pl, size) ==> Offset(pl, b) + BlockLen(pl, size, b) == size
  {
    hide BlockData;
    var n := BlockData(pl);
    var c := BlockCount(pl, size);
    DivBounds(size + n - 1, n);
    Products(size, n, c, b);
  }

  lemma Products(size: nat, n: nat, c: nat, b: nat)
    requires size >= 1 && n >= 1 && n * c <= size + n - 1 < n * c + n
    ensures b < c <==> b * n < size
    ensures b + 1 < c ==> b * n + n == (b + 1) * n && b * n + n < size
    ensures b + 1 == c ==> b * n + n >= size
  {
    assert n * c == c * n;
    MulNext(b, n);
    MulNext(b + 1, n);
    MulNext(c - 1, n);
    if b < c {
      MulLe(b, c - 1, n);
    } else {
      MulLe(c, b, n);
    }
    if b + 1 < c {
      MulLe(b + 1, c - 1, n);
    }
  }

  // ---- splitting one block ----

  function ShardSizeFor(len: nat, d: nat): (n: nat)
    requires d > 0
    ensures n >= 1
  {
    Max(CeilDiv(len, d), 1)
  }

  /** The block's bytes, zero-padded to d shards of n bytes. */
  function Padded(data: Data, d: nat, n: nat): (r: Data)
    requires |data| <= d * n
    ensures |r| == d * n && r[..|data|] == data
  {
    data + Zeros(d * n - |data|)
  }

  lemma ShardWithin(i: nat, d: nat, n: nat)
    requires i < d
    ensures 0 <= i * n <= (i + 1) * n <= d * n && (i + 1) * n == i * n + n
  {
    MulNext(i, n);
    MulLe(i + 1, d, n);
  }

  function Shard(block: Data, d: nat, n: nat, i: nat): (s: Data)
    requires |block| == d * n && i < d
    ensures |s| == n
  {
    ShardWithin(i, d, n);
    block[i * n..(i + 1) * n]
  }

  function Shards(block: Data, d: nat, n: nat): (s: seq<Data>)
    requires |block| == d * n
    ensures Shaped(s, d, n)
  {
    seq(d, i requires 0 <= i < d => Shard(block, d, n, i))
  }

  /** The first k shards, joined. */
  function Joined(shards: seq<Data>, k: nat): Data
    requires k <= |shards|
  {
    if k == 0 then [] else Joined(shards, k - 1) + shards[k - 1]
  }

  /** Joining the shards of a block gives the block back. */
  lemma {:induction false} JoinedShards(block: Data, d: nat, n: nat, k: nat)
    requires |block| == d * n && k <= d
    ensures k * n <= |block| && Joined(Shards(block, d, n), k) == block[..k * n]
  {
    if k > 0 {
      JoinedShards(block, d, n, k - 1);
      ShardWithin(k - 1, d, n);
      assert block[..k * n] == block[..(k - 1) * n] + block[(k - 1) * n..k * n];
    }
  }

  lemma ShardSizeFits(len: nat, d: nat, cap: nat)
    requires d > 0 && len <= d * cap && cap >= 1
    ensures len <= d * ShardSizeFor(len, d)
    ensures ShardSizeFor(len, d) <= cap
  {
    var q := (len + d - 1) / d;
    DivBounds(len + d - 1, d);
    assert d * q == q * d && d * cap == cap * d;
    if q > cap {
      MulLe(cap + 1, q, d);
      MulNext(cap, d);
    }
    MulLe(1, ShardSizeFor(len, d), d);
    assert d * ShardSizeFor(len, d) == ShardSizeFor(len, d) * d;
  }

  // ---- what a transmission consists of ----

  /** The sender's view: a file of the announced size, a name the header can hold, a plan from
      newDiodePlan, and no more blocks than the wire allows. */
  predicate Sendable(meta: FileMeta, pl: Plan, src: Data)
  {
    && Valid(pl) && |src| == meta.fileSize && meta.fileSize >= 1
    && |meta.transferID| == 16 && |meta.sha256| == 32 && Wire.NameOk(meta.name)
    && BlockCount(pl, meta.fileSize) <= Wire.MAX_BLOCK_COUNT
  }

  /** What can be sent: a file of at least one byte, of the size and under the name the datagrams announce, in
      at most 2^22 blocks of a legal plan. */
  lemma SendableMeans(meta: FileMeta, pl: Plan, src: Data)
    ensures Sendable(meta, pl, src) <==>
      && 1 <= pl.dataShards && 1 <= pl.parityShards && pl.dataShards + pl.parityShards <= 256 && 128 <= pl.shardSize <= 60_000
      && |src| >= 1 && meta.fileSize == |src| && |meta.transferID| == 16 && |meta.sha256| == 32 && 1 <= |meta.name| <= 128
      && |src| <= 4_194_304 * (pl.dataShards * pl.shardSize)
  {
    if Valid(pl) && meta.fileSize == |src| {
      var d := BlockData(pl);
      CeilMeans(|src|, d, 4_194_304);
    }
  }

  lemma CeilMeans(a: nat, d: nat, n: nat)
    requires d > 0
    ensures CeilDiv(a, d) <= n <==> a <= n * d
  {
    DivBounds(a + d - 1, d);
    var q := (a + d - 1) / d;
    if q <= n {
      MulLe(q, n, d);
    } else {
      MulLe(n + 1, q, d);
      MulNext(n, d);
    }
  }

  function Block(pl: Plan, src: Data, b: nat): (data: Data)
    requires Valid(pl) && 1 <= |src| && b < BlockCount(pl, |src|)
    ensures |data| == BlockLen(pl, |src|, b) && 1 <= |data| <= BlockData(pl)
  {
    Tiling(pl, |src|, b);
    src[Offset(pl, b)..Offset(pl, b) + BlockLen(pl, |src|, b)]
  }

  /** The shard size of block b: a short block shrinks its shards. */
  function ShardSize(pl: Plan, size: nat, b: nat): (n: nat)
    requires Valid(pl) && 1 <= size && b < BlockCount(pl, size)
    ensures 1 <= n <= pl.shardSize && BlockLen(pl, size, b) <= pl.dataShards * n
  {
    Tiling(pl, size, b);
    ShardSizeFits(BlockLen(pl, size, b), pl.dataShards, pl.shardSize);
    ShardSizeFor(BlockLen(pl, size, b), pl.dataShards)
  }

  function DataShards(pl: Plan, src: Data, b: nat): (s: seq<Data>)
    requires Valid(pl) && 1 <= |src| && b < BlockCount(pl, |src|)
    ensures Shaped(s, pl.dataShards, ShardSize(pl, |src|, b))
  {
    var n := ShardSize(pl, |src|, b);
    Shards(Padded(Block(pl, src, b), pl.dataShards, n), pl.dataShards, n)
  }

  /** The shards of block b: its data shards and their parity. */
  function Code(lib: Lib, pl: Plan, src: Data, b: nat): seq<Data>
    requires Valid(pl) && 1 <= |src| && b < BlockCount(pl, |src|)
  {
    Codeword(lib, pl.parityShards, DataShards(pl, src, b))
  }

  /** Cutting a block and joining its data shards, without the padding, gives the block back. */
  lemma JoinedBlock(pl: Plan, src: Data, b: nat)
    requires Valid(pl) && 1 <= |src| && b < BlockCount(pl, |src|)
    ensures var j := Joined(DataShards(pl, src, b), pl.dataShards);
      && |j| >= BlockLen(pl, |src|, b)
      && j[..BlockLen(pl, |src|, b)] == Block(pl, src, b)
  {
    var n := ShardSize(pl, |src|, b);
    var padded := Padded(Block(pl, src, b), pl.dataShards, n);
    JoinedShards(padded, pl.dataShards, n, pl.dataShards);
  }

  /** The parity shards of block b have the size of its data shards. */
  predicate CodeOk(lib: Lib, pl: Plan, src: Data, b: nat)
    requires Valid(pl) && 1 <= |src| && b < BlockCount(pl, |src|)
  {
    Shaped(Code(lib, pl, src, b), Total(pl), ShardSize(pl, |src|, b))
  }

  ghost predicate Encodes(lib: Lib, pl: Plan, src: Data, n: nat)
    requires Valid(pl) && 1 <= |src| && n <= BlockCount(pl, |src|)
  {
    forall b: nat | b < n :: CodeOk(lib, pl, src, b)
  }

  lemma LawfulEncodes(lib: Lib, pl: Plan, src: Data, b: nat)
    requires Valid(pl) && 1 <= |src| && Lawful(lib) && b < BlockCount(pl, |src|)
    ensures CodeOk(lib, pl, src, b)
  {
    var d: nat, p: nat, n := pl.dataShards, pl.parityShards, ShardSize(pl, |src|, b);
    var shards := DataShards(pl, src, b);
    assert Shaped(lib.encode(d, p, shards), p, n);
  }

  function PacketAt(lib: Lib, meta: FileMeta, pl: Plan, src: Data, b: nat, si: nat): Wire.Packet
    requires Sendable(meta, pl, src) && b < BlockCount(pl, |src|) && CodeOk(lib, pl, src, b) && si < Total(pl)
  {
    Wire.Packet(
      meta.transferID, meta.sha256, meta.name, meta.fileSize,
      BlockCount(pl, |src|), b, Offset(pl, b), BlockLen(pl, |src|, b),
      ShardSize(pl, |src|, b), pl.dataShards, pl.parityShards, si, Code(lib, pl, src, b)[si])
  }

  lemma PacketValid(lib: Lib, meta: FileMeta, pl: Plan, src: Data, b: nat, si: nat)
    requires Sendable(meta, pl, src) && Wire.IsInt64(meta.fileSize)
    requires b < BlockCount(pl, |src|) && CodeOk(lib, pl, src, b) && si < Total(pl)
    ensures Wire.Typed(PacketAt(lib, meta, pl, src, b, si))
    ensures Wire.Validate(PacketAt(lib, meta, pl, src, b, si)).None?
  {
    hide BlockData, Code, BlockCount, ShardSize, Offset;
    Tiling(pl, |src|, b);
    BlocksWithinSize(pl, |src|);
    OffsetBound(pl, |src|, b);
  }

  /** Every packet of a transmission is valid, so the receiver decodes its datagram to it. */
  lemma PacketsParse(lib: Lib, meta: FileMeta, pl: Plan, src: Data, b: nat, si: nat)
    requires Sendable(meta, pl, src) && Wire.IsInt64(meta.fileSize)
    requires b < BlockCount(pl, |src|) && CodeOk(lib, pl, src, b) && si < Total(pl)
    ensures var p := PacketAt(lib, meta, pl, src, b, si);
      Wire.Parse(lib.crc, DatagramAt(lib, meta, pl, src, b, si)) == Wire.Accepted(p)
  {
    hide Wire.Parse, Wire.Datagram, Wire.Validate, CodeOk, BlockData, Code, BlockCount, ShardSize, Offset;
    PacketValid(lib, meta, pl, src, b, si);
    Wire.RoundTrip(lib.crc, PacketAt(lib, meta, pl, src, b, si));
  }

  lemma BlocksWithinSize(pl: Plan, size: nat)
    requires Valid(pl) && size >= 1
    ensures 1 <= BlockCount(pl, size) <= size
  {
    var n := BlockData(pl);
    var c := BlockCount(pl, size);
    DivBounds(size + n - 1, n);
    if c > size {
      MulLe(size + 1, c, n);
      MulNext(size, n);
      MulLe(1, n, size);
    }
  }

  lemma OffsetBound(pl: Plan, size: nat, b: nat)
    requires Valid(pl) && b < BlockCount(pl, size) && 1 <= size
    ensures 0 <= Offset(pl, b) < size
  {
    Tiling(pl, size, b);
    MulLe(0, b, BlockData(pl));
  }

  function DatagramAt(lib: Lib, meta: FileMeta, pl: Plan, src: Data, b: nat, si: nat): Data
    requires Sendable(meta, pl, src) && Wire.IsInt64(meta.fileSize)
    requires b < BlockCount(pl, |src|) && CodeOk(lib, pl, src, b) && si < Total(pl)
  {
    PacketValid(lib, meta, pl, src, b, si);
    Wire.Datagram(lib.crc, PacketAt(lib, meta, pl, src, b, si))
  }

  /** The first k datagrams of block b. */
  function BlockDatagrams(lib: Lib, meta: FileMeta, pl: Plan, src: Data, b: nat, k: nat): (out: seq<Data>)
    requires Sendable(meta, pl, src) && Wire.IsInt64(meta.fileSize)
    requires b < BlockCount(pl, |src|) && CodeOk(lib, pl, src, b) && k <= Total(pl)
    ensures |out| == k
    ensures forall si | 0 <= si < k :: out[si] == DatagramAt(lib, meta, pl, src, b, si)
  {
    seq(k, si requires 0 <= si < k => DatagramAt(lib, meta, pl, src, b, si))
  }

  /** The datagrams of the first n blocks: the k-th is shard k % total of block k / total. */
  ghost function Emission(lib: Lib, meta: FileMeta, pl: Plan, src: Data, n: nat): (out: seq<Data>)
    requires Sendable(meta, pl, src) && Wire.IsInt64(meta.fileSize)
    requires n <= BlockCount(pl, |src|) && Encodes(lib, pl, src, n)
    ensures |out| == n * Total(pl)
  {
    seq(n * Total(pl), k requires 0 <= k < n * Total(pl) => Nth(lib, meta, pl, src, n, k))
  }

  ghost function Nth(lib: Lib, meta: FileMeta, pl: Plan, src: Data, n: nat, k: nat): Data
    requires Sendable(meta, pl, src) && Wire.IsInt64(meta.fileSize)
    requires n <= BlockCount(pl, |src|) && Encodes(lib, pl, src, n) && k < n * Total(pl)
  {
    hide *;
    NthBelow(pl, k, n);
    EncodesAt(lib, pl, src, n, BlockOfNth(pl, k));
    DatagramAt(lib, meta, pl, src, BlockOfNth(pl, k), ShardOfNth(pl, k))
  }

  function BlockOfNth(pl: Plan, k: nat): nat requires Valid(pl) { k / Total(pl) }

  function ShardOfNth(pl: Plan, k: nat): nat requires Valid(pl) { k % Total(pl) }

  lemma NthBelow(pl: Plan, k: nat, n: nat)
    requires Valid(pl) && k < n * Total(pl)
    ensures BlockOfNth(pl, k) < n && ShardOfNth(pl, k) < Total(pl)
  {
    QuotientBelow(k, n, Total(pl));
  }

  lemma EncodesAt(lib: Lib, pl: Plan, src: Data, n: nat, b: nat)
    requires Valid(pl) && 1 <= |src| && b < n <= BlockCount(pl, |src|) && Encodes(lib, pl, src, n)
    ensures CodeOk(lib, pl, src, b)
  {
    hide CodeOk, BlockCount;
  }

  lemma QuotientBelow(k: nat, n: nat, t: nat)
    requires t > 0 && k < n * t
    ensures k / t < n && k % t < t
  {
    DivBounds(k, t);
    if k / t >= n {
      MulLe(n, k / t, t);
    }
  }

  lemma QuotientOf(b: nat, si: nat, t: nat)
    requires si < t
    ensures (b * t + si) / t == b && (b * t + si) % t == si
  {
    ModUnique(b * t + si, t, b, si);
    assert t * ((b * t + si) / t) == t * b;
    MulCancel(t, (b * t + si) / t, b);
  }

  lemma MulCancel(t: nat, x: nat, y: nat)
    requires t > 0 && t * x == t * y
    ensures x == y
  {
    if x < y {
      MulLe(x + 1, y, t);
    } else if y < x {
      MulLe(y + 1, x, t);
    }
  }

  /** Sending one more block appends its datagrams. */
  lemma EmissionGrows(lib: Lib, meta: FileMeta, pl: Plan, src: Data, n: nat)
    requires Sendable(meta, pl, src) && Wire.IsInt64(meta.fileSize)
    requires n < BlockCount(pl, |src|) && Encodes(lib, pl, src, n + 1)
    ensures CodeOk(lib, pl, src, n)
    ensures Emission(lib, meta, pl, src, n + 1)
         == Emission(lib, meta, pl, src, n) + BlockDatagrams(lib, meta, pl, src, n, Total(pl))
  {
    hide BlockCount, CodeOk, DatagramAt, BlockDatagrams, Total;
    EncodesAt(lib, pl, src, n + 1, n);
    var t := Total(pl);
    MulNext(n, t);
    var all := Emission(lib, meta, pl, src, n + 1);
    var init := Emission(lib, meta, pl, src, n);
    var last := BlockDatagrams(lib, meta, pl, src, n, t);
    forall k | 0 <= k < |all| ensures all[k] == (init + last)[k] {
      if k >= |init| {
        QuotientOf(n, k - n * t, t);
      }
    }
  }

  lemma IndexBound(b: nat, si: nat, n: nat, t: nat)
    requires b < n && si < t
    ensures 0 <= b * t + si < n * t
  {
    MulNext(b, t);
    MulLe(b + 1, n, t);
  }

  /** packetCount is the number of datagrams the file becomes, and every shard of every block is
      among them, at its place. */
  lemma EmissionIsComplete(lib: Lib, meta: FileMeta, pl: Plan, src: Data, b: nat, si: nat, k: int)
    requires Sendable(meta, pl, src) && Wire.IsInt64(meta.fileSize)
    requires Encodes(lib, pl, src, BlockCount(pl, |src|))
    requires b < BlockCount(pl, |src|) && si < Total(pl) && k == b * Total(pl) + si
    ensures CodeOk(lib, pl, src, b)
    ensures var out := Emission(lib, meta, pl, src, BlockCount(pl, |src|));
      && |out| == PacketCount(pl, meta.fileSize)
      && 0 <= k < |out|
      && out[k] == DatagramAt(lib, meta, pl, src, b, si)
  {
    hide BlockCount, CodeOk, DatagramAt, Total, Encodes, Valid, Wire.IsInt64;
    var n, t := BlockCount(pl, |src|), Total(pl);
    EncodesAt(lib, pl, src, n, b);
    IndexBound(b, si, n, t);
    QuotientOf(b, si, t);
    BlocksWithinSize(pl, |src|);
  }
}
