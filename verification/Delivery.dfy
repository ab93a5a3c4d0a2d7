/** End-to-end delivery: what one transmission, received in any order with any losses and duplicates,
    leaves at the catcher. The state depends only on the set of distinct shards that arrived. */
module Delivery {
  import opened Bytes
  import opened Library
  import opened Landing
  import opened MapSum
  import opened Machine
  import opened Invariant
  import S = Sender
  import Wire

  /** A file to deliver: the libraries, its announcement, the plan of its sender and its bytes. */
  datatype Job = Job(lib: Lib, meta: S.FileMeta, pl: S.Plan, src: Data)

  ghost predicate JobOk(j: Job)
  {
    && S.Sendable(j.meta, j.pl, j.src) && Wire.IsInt64(j.meta.fileSize) && Lawful(j.lib)
    && j.meta.sha256 == j.lib.sha(j.src) && j.lib.validName(j.meta.name)
    && SizeLimit(j.meta.name).Some? && j.meta.fileSize <= SizeLimit(j.meta.name).value
  }

  ghost function Count(j: Job): nat requires JobOk(j) { S.BlockCount(j.pl, |j.src|) }

  ghost function Len(j: Job, b: nat): (n: nat)
    requires JobOk(j) && b < Count(j)
    ensures 1 <= n <= MAX_BLOCK_BYTES
  {
    S.Tiling(j.pl, |j.src|, b);
    S.BlockLen(j.pl, |j.src|, b)
  }

  ghost function Off(j: Job, b: nat): nat
    requires JobOk(j)
  {
    MulLe(0, b, S.BlockData(j.pl));
    S.Offset(j.pl, b)
  }

  ghost function Size(j: Job, b: nat): nat requires JobOk(j) && b < Count(j) { S.ShardSize(j.pl, |j.src|, b) }

  ghost function Code(j: Job, b: nat): (c: seq<Data>)
    requires JobOk(j) && b < Count(j)
    ensures Shaped(c, S.Total(j.pl), Size(j, b))
  {
    S.LawfulEncodes(j.lib, j.pl, j.src, b);
    S.Code(j.lib, j.pl, j.src, b)
  }

  ghost function Packet(j: Job, b: nat, si: nat): (p: Wire.Packet)
    requires JobOk(j) && b < Count(j) && si < S.Total(j.pl)
    ensures Sane(p)
  {
    S.LawfulEncodes(j.lib, j.pl, j.src, b);
    S.PacketsParse(j.lib, j.meta, j.pl, j.src, b, si);
    ParsedIsSane(j.lib.crc, S.DatagramAt(j.lib, j.meta, j.pl, j.src, b, si));
    S.PacketAt(j.lib, j.meta, j.pl, j.src, b, si)
  }

  /** The datagram the sender emits for a shard. */
  ghost function Sent(j: Job, b: nat, si: nat): Data
    requires JobOk(j) && b < Count(j) && si < S.Total(j.pl)
  {
    S.LawfulEncodes(j.lib, j.pl, j.src, b);
    S.DatagramAt(j.lib, j.meta, j.pl, j.src, b, si)
  }

  lemma SentParse(j: Job, b: nat, si: nat)
    requires JobOk(j) && b < Count(j) && si < S.Total(j.pl)
    ensures Wire.Parse(j.lib.crc, Sent(j, b, si)) == Wire.Accepted(Packet(j, b, si))
  {
    hide Wire.Parse, S.DatagramAt, S.PacketAt, Sane, S.CodeOk;
    S.LawfulEncodes(j.lib, j.pl, j.src, b);
    S.PacketsParse(j.lib, j.meta, j.pl, j.src, b, si);
  }

  /** The fields of a packet, in the job's terms. */
  lemma PacketFields(j: Job, b: nat, si: nat)
    requires JobOk(j) && b < Count(j) && si < S.Total(j.pl)
    ensures var p := Packet(j, b, si);
      && p.transferID == j.meta.transferID && p.sha256 == j.meta.sha256 && p.name == j.meta.name
      && p.fileSize == |j.src| && p.blockCount == Count(j) && p.blockIndex == b
      && p.blockOffset == Off(j, b) && p.blockLen == Len(j, b) && p.shardSize == Size(j, b)
      && p.dataShards == j.pl.dataShards && p.parityShards == j.pl.parityShards
      && p.shardIndex == si && p.shard == Code(j, b)[si]
  {
    hide S.BlockCount, S.Offset, S.BlockLen, S.ShardSize, S.Code, S.CodeOk, Sane, Lawful;
    S.LawfulEncodes(j.lib, j.pl, j.src, b);
  }

  // ---- what has been received ----

  /** The distinct shards received, as (block, shard) pairs. */
  type Seen = set<(nat, nat)>

  ghost function Got(seen: Seen, b: nat): set<nat>
  {
    set x | x in seen && x.0 == b :: x.1
  }

  lemma GotMore(seen: Seen, b: nat, si: nat, other: nat)
    ensures Got(seen + {(b, si)}, other) == if other == b then Got(seen, b) + {si} else Got(seen, other)
  {
    var more := Got(seen + {(b, si)}, other);
    forall x | x in Got(seen, other) ensures x in more {
      assert (other, x) in seen + {(b, si)};
    }
    if other == b {
      assert (b, si) in seen + {(b, si)};
    }
  }

  ghost predicate InJob(j: Job, seen: Seen)
    requires JobOk(j)
  {
    forall x | x in seen :: x.0 < Count(j) && x.1 < S.Total(j.pl)
  }

  /** The blocks that are whole: those held before the attempt and those with enough shards. */
  ghost function Whole(j: Job, held: set<nat>, seen: Seen): set<nat>
    requires JobOk(j)
  {
    held + set b | 0 <= b < Count(j) && |Got(seen, b)| >= j.pl.dataShards
  }

  /** The blocks with some shards but too few. */
  ghost function Partial(j: Job, held: set<nat>, seen: Seen): set<nat>
    requires JobOk(j)
  {
    set b | 0 <= b < Count(j) && b !in held && 0 < |Got(seen, b)| < j.pl.dataShards
  }

  ghost function Upto(n: nat): (s: set<nat>)
    ensures forall b :: b in s <==> 0 <= b < n
  {
    if n == 0 then {} else Upto(n - 1) + {n - 1}
  }

  ghost function Reserve(j: Job, b: nat): nat
    requires JobOk(j) && b < Count(j)
  {
    hide *;
    MulLe(0, S.Total(j.pl), Size(j, b));
    S.Total(j.pl) * Size(j, b)
  }

  ghost function Reserves(j: Job, blocks: set<nat>): map<nat, nat>
    requires JobOk(j) && forall b | b in blocks :: b < Count(j)
  {
    map b | b in blocks :: Reserve(j, b)
  }

  ghost function Lengths(j: Job, blocks: set<nat>): map<nat, nat>
    requires JobOk(j) && forall b | b in blocks :: b < Count(j)
  {
    map b | b in blocks :: Len(j, b)
  }

  /** The bytes are the file's wherever one of the blocks lies. */
  ghost predicate Faithful(j: Job, bytes: Data, blocks: set<nat>)
    requires JobOk(j) && forall b | b in blocks :: b < Count(j)
  {
    forall b | b in blocks :: FaithfulAt(j, bytes, b)
  }

  ghost predicate FaithfulAt(j: Job, bytes: Data, b: nat)
    requires JobOk(j) && b < Count(j)
  {
    var lo, hi := Off(j, b), Off(j, b) + Len(j, b);
    hi <= |bytes| && hi <= |j.src| && bytes[lo..hi] == j.src[lo..hi]
  }

  /** The block the catcher holds for the shards it got. */
  ghost function Gathered(j: Job, b: nat, got: set<nat>): Block
    requires JobOk(j) && b < Count(j) && forall i | i in got :: i < S.Total(j.pl)
  {
    Block(j.pl.dataShards, j.pl.parityShards, Size(j, b), Len(j, b), Off(j, b),
          map i | i in got :: Code(j, b)[i], |got|, Reserve(j, b))
  }

  lemma GotInJob(j: Job, seen: Seen, b: nat)
    requires JobOk(j) && InJob(j, seen)
    ensures forall i | i in Got(seen, b) :: i < S.Total(j.pl)
  {
  }

  /** The transfer of the job after the given shards: exactly the whole blocks are done and on disk,
      exactly the partial ones are open, with exactly their shards. */
  ghost predicate Holds(j: Job, held: set<nat>, seen: Seen, t: Transfer, files: Dir)
    requires JobOk(j) && InJob(j, seen) && forall b | b in held :: b < Count(j)
  {
    && t.id == j.meta.transferID && t.name == j.meta.name && t.fileSize == |j.src|
    && t.sha256 == j.meta.sha256 && t.blockCount == Count(j)
    && t.blocksDone == Whole(j, held, seen)
    && t.written == Sum(Lengths(j, Whole(j, held, seen)))
    && HoldsBlocks(j, held, seen, t.blocks)
    && Faithful(j, Content(files, t.tmp), Whole(j, held, seen))
  }

  ghost predicate HoldsBlocks(j: Job, held: set<nat>, seen: Seen, blocks: map<nat, Block>)
    requires JobOk(j) && InJob(j, seen)
  {
    && blocks.Keys == Partial(j, held, seen)
    && forall b | b in blocks ::
         (forall i | i in Got(seen, b) :: i < S.Total(j.pl)) && blocks[b] == Gathered(j, b, Got(seen, b))
  }

  // ---- whole and partial blocks as shards arrive ----

  lemma GotBounded(j: Job, seen: Seen, b: nat, si: nat)
    requires JobOk(j) && InJob(j, seen) && b < Count(j) && si < S.Total(j.pl)
    ensures InJob(j, seen + {(b, si)})
  {
  }

  /** How one new shard of a block that is not whole moves the block. */
  lemma NewShard(j: Job, held: set<nat>, seen: Seen, b: nat, si: nat)
    requires JobOk(j) && InJob(j, seen) && b < Count(j) && si < S.Total(j.pl)
    requires (b, si) !in seen && b !in Whole(j, held, seen)
    ensures var more := seen + {(b, si)};
      && |Got(more, b)| == |Got(seen, b)| + 1
      && (|Got(more, b)| >= j.pl.dataShards ==>
            Whole(j, held, more) == Whole(j, held, seen) + {b} && Partial(j, held, more) == Partial(j, held, seen) - {b})
      && (|Got(more, b)| < j.pl.dataShards ==>
            Whole(j, held, more) == Whole(j, held, seen) && Partial(j, held, more) == Partial(j, held, seen) + {b})
    ensures b in Partial(j, held, seen) <==> Got(seen, b) != {}
  {
    hide JobOk, S.Total, Count, InJob;
    var more := seen + {(b, si)};
    GotMore(seen, b, si, b);
    assert si !in Got(seen, b);
    forall x | x != b ensures Got(more, x) == Got(seen, x) {
      if x >= 0 {
        GotMore(seen, b, si, x);
      }
    }
    assert Got(seen, b) == {} <==> |Got(seen, b)| == 0;
  }

  /** More shards of a whole block leave the blocks as they are. */
  lemma LateShard(j: Job, held: set<nat>, seen: Seen, b: nat, si: nat)
    requires JobOk(j) && InJob(j, seen) && b < Count(j) && b in Whole(j, held, seen)
    ensures var more := seen + {(b, si)};
      && Whole(j, held, more) == Whole(j, held, seen) && Partial(j, held, more) == Partial(j, held, seen)
      && (forall x | x in Partial(j, held, seen) :: Got(more, x) == Got(seen, x))
  {
    hide JobOk, S.Total, Count, InJob;
    var more := seen + {(b, si)};
    forall x: nat ensures Got(seen, x) <= Got(more, x) && (x != b ==> Got(more, x) == Got(seen, x)) {
      GotMore(seen, b, si, x);
    }
    SizesGrow(seen, more, b);
    forall x | 0 <= x < Count(j)
      ensures |Got(more, x)| >= j.pl.dataShards || x in held <==> |Got(seen, x)| >= j.pl.dataShards || x in held
    {
    }
  }

  lemma SizesGrow(seen: Seen, more: Seen, b: nat)
    requires Got(seen, b) <= Got(more, b)
    ensures |Got(seen, b)| <= |Got(more, b)|
  {
    assert Got(more, b) == Got(seen, b) + (Got(more, b) - Got(seen, b));
  }

  // ---- one block ----

  lemma GatheredNew(j: Job, b: nat, si: nat)
    requires JobOk(j) && b < Count(j) && si < S.Total(j.pl)
    ensures NewBlock(Packet(j, b, si)) == Gathered(j, b, {})
    ensures Footprint(Packet(j, b, si)) == Reserve(j, b)
  {
    hide JobOk, Packet, Count, Len, Off, Size, Code, Sane;
    PacketFields(j, b, si);
    assert Gathered(j, b, {}).shards == map[];
  }

  lemma GatheredMore(j: Job, b: nat, got: set<nat>, si: nat)
    requires JobOk(j) && b < Count(j) && si < S.Total(j.pl) && si !in got
    requires forall i | i in got :: i < S.Total(j.pl)
    ensures AddShard(Gathered(j, b, got), Packet(j, b, si)) == Gathered(j, b, got + {si})
    ensures SameGeometry(Gathered(j, b, got), Packet(j, b, si))
  {
    hide JobOk, Packet, Count, Len, Off, Size, Code, Sane, Reserve;
    PacketFields(j, b, si);
  }

  lemma Rebuilds(lib: Lib, d: nat, p: nat, n: nat, data: seq<Data>, got: seq<Option<Data>>)
    requires Lawful(lib) && Geometry(d, p) && n >= 1 && Shaped(data, d, n)
    requires Subset(got, Codeword(lib, p, data)) && |Present(got)| >= d
    ensures lib.rebuild(d, p, got) == Some(data)
  {
    hide Codeword, Present, Subset, Shaped, Geometry;
  }

  lemma RecoverFrom(lib: Lib, g: Block, data: seq<Data>)
    requires Lawful(lib) && Geometry(g.dataShards, g.parityShards) && g.shardSize >= 1
    requires Shaped(data, g.dataShards, g.shardSize)
    requires |Codeword(lib, g.parityShards, data)| == g.dataShards + g.parityShards && |g.shards| >= g.dataShards
    requires forall i | i in g.shards ::
      i < g.dataShards + g.parityShards && g.shards[i] == Codeword(lib, g.parityShards, data)[i]
    ensures DataShards(lib, g) == Some(data)
  {
    hide Lawful;
    var d := g.dataShards;
    var code := Codeword(lib, g.parityShards, data);
    assert forall i | 0 <= i < d :: code[i] == data[i];
    assert Present(Slots(g)) == g.shards.Keys;
    Rebuilds(lib, d, g.parityShards, g.shardSize, data, Slots(g));
    var back := DataShards(lib, g);
    assert back.Some? && |back.value| == d;
    assert forall i | 0 <= i < d :: back.value[i] == data[i];
    assert back.value == data;
  }

  /** Any dataShards distinct shards give back the block's data shards. */
  lemma Recovered(j: Job, b: nat, got: set<nat>)
    requires JobOk(j) && b < Count(j) && (forall i | i in got :: i < S.Total(j.pl)) && |got| >= j.pl.dataShards
    ensures DataShards(j.lib, Gathered(j, b, got)) == Some(S.DataShards(j.pl, j.src, b))
  {
    hide Len, Off, Reserve, S.DataShards, S.ShardSize, S.BlockCount, Lawful, DataShards;
    var g := Gathered(j, b, got);
    var data := S.DataShards(j.pl, j.src, b);
    assert Code(j, b) == Codeword(j.lib, j.pl.parityShards, data);
    assert g.shards.Keys == got;
    RecoverFrom(j.lib, g, data);
  }

  lemma OverlayNothing(f: Data, off: nat)
    requires off <= |f|
    ensures Overlay(f, off, []) == f
  {
    assert f[..off] + [] + f[off..] == f;
  }

  /** The shard-by-shard writes of a block amount to one write of its bytes. */
  lemma {:induction false} WriteShardsWhole(d: Disk, path: Data, off: nat, shards: seq<Data>, remaining: nat, writes: nat)
    requires path in d.files && d.files[path].Plain? && writes >= |shards|
    requires remaining <= |Flat(shards)| && (remaining > 0 || off <= |d.files[path].bytes|)
    ensures var (e, ok) := WriteShards(d, path, off, shards, remaining, writes);
      && ok && path in e.files
      && e.files[path] == Plain(Overlay(d.files[path].bytes, off, Flat(shards)[..remaining]))
    decreases |shards|
  {
    hide Overlay;
    var f := d.files[path].bytes;
    if shards == [] || remaining == 0 {
      assert Flat(shards)[..remaining] == [];
      OverlayNothing(f, off);
    } else {
      var n := Min(|shards[0]|, remaining);
      var head := shards[0][..n];
      var d1 := WriteAt(d, path, off, head);
      if remaining > n || n > 0 {
        WriteShardsWhole(d1, path, off + n, shards[1..], remaining - n, writes - 1);
        OverlayTwice(f, off, head, Flat(shards[1..])[..remaining - n]);
        assert Flat(shards)[..remaining] == head + Flat(shards[1..])[..remaining - n];
      }
    }
  }

  /** All shards joined, from the front. */
  function Flat(shards: seq<Data>): Data
  {
    if shards == [] then [] else shards[0] + Flat(shards[1..])
  }

  lemma {:induction false} FlatIsJoined(shards: seq<Data>, k: nat)
    requires k <= |shards|
    ensures S.Joined(shards, k) + Flat(shards[k..]) == Flat(shards)
  {
    if k > 0 {
      FlatIsJoined(shards, k - 1);
      assert shards[k - 1..][1..] == shards[k..];
    } else {
      assert shards[0..] == shards;
    }
  }

  lemma FlatBlock(j: Job, b: nat)
    requires JobOk(j) && b < Count(j)
    ensures var flat := Flat(S.DataShards(j.pl, j.src, b));
      Len(j, b) <= |flat| && flat[..Len(j, b)] == S.Block(j.pl, j.src, b)
  {
    var shards := S.DataShards(j.pl, j.src, b);
    S.JoinedBlock(j.pl, j.src, b);
    FlatIsJoined(shards, |shards|);
    assert shards[|shards|..] == [];
    assert S.Joined(shards, |shards|) + [] == S.Joined(shards, |shards|);
  }

  // ---- the whole file ----

  lemma NotEmpty(j: Job)
    requires JobOk(j)
    ensures |j.src| >= 1
  {
  }

  /** The bytes of a block. */
  ghost function BlockOf(j: Job, b: nat): Data
    requires JobOk(j) && b < Count(j)
  {
    S.Block(j.pl, j.src, b)
  }

  lemma BlockSlice(j: Job, b: nat)
    requires JobOk(j) && b < Count(j)
    ensures Off(j, b) + Len(j, b) <= |j.src|
    ensures BlockOf(j, b) == j.src[Off(j, b)..Off(j, b) + Len(j, b)]
  {
    S.Tiling(j.pl, |j.src|, b);
  }

  /** Writing a block's bytes at its offset makes the file right there and leaves it right elsewhere. */
  lemma FaithfulWrite(j: Job, bytes: Data, blocks: set<nat>, b: nat)
    requires JobOk(j) && b < Count(j) && (forall x | x in blocks :: x < Count(j)) && Faithful(j, bytes, blocks)
    ensures Faithful(j, Overlay(bytes, Off(j, b), BlockOf(j, b)), blocks + {b})
  {
    hide JobOk, Off, Len, Count, BlockOf, Overlay;
    BlockSlice(j, b);
    var off, data := Off(j, b), BlockOf(j, b);
    var r := Overlay(bytes, off, data);
    forall x | x in blocks + {b} ensures FaithfulAt(j, r, x) {
      var lo, hi := Off(j, x), Off(j, x) + Len(j, x);
      assert x != b ==> FaithfulAt(j, bytes, x);
      BlockSlice(j, x);
      forall i | lo <= i < hi ensures r[i] == j.src[i] {
        OverlayAt(bytes, off, data, i);
        if x != b && !(off <= i < off + |data|) {
          assert bytes[i] == bytes[lo..hi][i - lo];
          assert j.src[i] == j.src[lo..hi][i - lo];
        }
      }
    }
  }

  lemma LengthsInsert(j: Job, blocks: set<nat>, b: nat)
    requires JobOk(j) && b < Count(j) && (forall x | x in blocks :: x < Count(j)) && b !in blocks
    ensures Sum(Lengths(j, blocks + {b})) == Sum(Lengths(j, blocks)) + Len(j, b)
  {
    hide JobOk, Len, Count;
    assert Lengths(j, blocks + {b}) == Lengths(j, blocks)[b := Len(j, b)];
    SumInsert(Lengths(j, blocks), b, Len(j, b));
  }

  /** The block lengths add up to the file size. */
  lemma {:induction false} LengthsUpto(j: Job, n: nat)
    requires JobOk(j) && n <= Count(j)
    ensures Sum(Lengths(j, Upto(n))) == if n == Count(j) then |j.src| else Off(j, n)
  {
    hide JobOk, Len, Count, Off;
    CountPositive(j);
    if n == 0 {
      assert Lengths(j, Upto(0)) == map[];
      OffZero(j);
    } else {
      LengthsUpto(j, n - 1);
      LengthsInsert(j, Upto(n - 1), n - 1);
      NextBlock(j, n - 1);
    }
  }

  lemma CountPositive(j: Job)
    requires JobOk(j)
    ensures Count(j) >= 1
  {
    S.BlocksWithinSize(j.pl, |j.src|);
  }

  lemma OffZero(j: Job)
    requires JobOk(j)
    ensures Off(j, 0) == 0
  {
  }

  lemma NextBlock(j: Job, b: nat)
    requires JobOk(j) && b < Count(j)
    ensures Off(j, b) + Len(j, b) == if b + 1 == Count(j) then |j.src| else Off(j, b + 1)
  {
    hide S.BlockCount, S.BlockData;
    S.Tiling(j.pl, |j.src|, b);
  }

  lemma {:induction false} BlockOfByte(j: Job, i: nat, n: nat) returns (b: nat)
    requires JobOk(j) && n <= Count(j) && i < (if n == Count(j) then |j.src| else Off(j, n))
    ensures b < Count(j) && Off(j, b) <= i < Off(j, b) + Len(j, b)
  {
    hide JobOk, Len, Count, Off;
    CountPositive(j);
    OffZero(j);
    NextBlock(j, n - 1);
    if i >= Off(j, n - 1) {
      b := n - 1;
    } else {
      b := BlockOfByte(j, i, n - 1);
    }
  }

  /** Once every block is in place, the file is the sender's, byte for byte. */
  lemma AllFaithful(j: Job, bytes: Data, blocks: set<nat>)
    requires JobOk(j) && blocks == Upto(Count(j)) && Faithful(j, bytes, blocks) && |bytes| <= |j.src|
    ensures bytes == j.src && Sum(Lengths(j, blocks)) == |j.src|
  {
    hide JobOk, Len, Count, Off;
    NotEmpty(j);
    LengthsUpto(j, Count(j));
    var last := BlockOfByte(j, |j.src| - 1, Count(j));
    assert FaithfulAt(j, bytes, last);
    forall i | 0 <= i < |j.src| ensures bytes[i] == j.src[i] {
      var b := BlockOfByte(j, i, Count(j));
      assert FaithfulAt(j, bytes, b);
      var lo, hi := Off(j, b), Off(j, b) + Len(j, b);
      assert bytes[i] == bytes[lo..hi][i - lo];
      assert j.src[i] == j.src[lo..hi][i - lo];
    }
  }

  // ---- completing a block ----

  lemma WholeBounded(j: Job, held: set<nat>, seen: Seen)
    requires JobOk(j) && forall b | b in held :: b < Count(j)
    ensures forall b | b in Whole(j, held, seen) :: b < Count(j)
  {
  }

  /** Enough shards of a block put exactly its bytes into the temporary file. */
  lemma BlockWritten(j: Job, b: nat, got: set<nat>, d: Disk, path: Data, writes: nat)
    requires JobOk(j) && b < Count(j) && (forall i | i in got :: i < S.Total(j.pl)) && |got| >= j.pl.dataShards
    requires path in d.files && d.files[path].Plain? && writes >= 256
    ensures DataShards(j.lib, Gathered(j, b, got)).Some?
    ensures var (e, ok) := WriteShards(d, path, Off(j, b), DataShards(j.lib, Gathered(j, b, got)).value, Len(j, b), writes);
      && ok && path in e.files
      && e.files[path] == Plain(Overlay(d.files[path].bytes, Off(j, b), BlockOf(j, b)))
  {
    hide Gathered, DataShards, Off, Len, WriteShards, Overlay, S.DataShards, S.Block, Flat, S.BlockCount, S.ShardSize;
    Recovered(j, b, got);
    FlatBlock(j, b);
    WriteShardsWhole(d, path, Off(j, b), S.DataShards(j.pl, j.src, b), Len(j, b), writes);
  }

  /** A transfer with every block in place lands the file. */
  lemma Lands(j: Job, d: Disk, t: Transfer, io: Io)
    requires JobOk(j) && TempOk(t, d.files) && GoodIo(io)
    requires t.name == j.meta.name && t.fileSize == |j.src| && t.sha256 == j.meta.sha256
    requires t.blocksDone == Upto(Count(j)) && t.written == Sum(Lengths(j, t.blocksDone))
    requires Faithful(j, Content(d.files, t.tmp), t.blocksDone)
    ensures var files := Land(j.lib, d, t, io).files;
      j.meta.name in files && files[j.meta.name] == Plain(j.src)
  {
    hide IsTemp, Count, Lengths, Faithful, IsFinal, PartPath, StatePath;
    AllFaithful(j, Content(d.files, t.tmp), t.blocksDone);
    NamesApart(t.tmp, t.name, t.name);
    assert Resized(j.src, |j.src|) == j.src;
    FinalKept(t.name);
  }

  lemma FinalKept(name: Data)
    requires SizeLimit(name).Some?
    ensures PartPath(name) != name && StatePath(name) != name
  {
    hide PART, STATE;
    LastBytes();
    assert |PartPath(name)| == |name| + 9 && |StatePath(name)| == |name| + 14;
  }

  /** No call fails once the transfer is open. */
  predicate GoodIo(io: Io)
  {
    io.shardWrites >= 256 && io.truncate && io.read && io.sync && io.close && io.rename && io.syncDir && io.sidecar
  }
}
