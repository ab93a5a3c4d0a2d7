/** The catcher's mutable records: an open block and a transfer, updated in place. */
module Objects {
  import opened Bytes
  import opened Library
  import opened Machine
  import Bitset
  import Wire

  /** diodeBlock. */
  class OpenBlock {
    const dataShards: nat
    const parityShards: nat
    const shardSize: nat
    const blockLen: nat
    const offset: nat
    var shards: seq<Option<Data>>
    var have: nat
    var reserved: nat

    constructor (p: Wire.Packet)
      requires Sane(p)
      ensures Shape() && Model() == NewBlock(p)
    {
      dataShards, parityShards, shardSize := p.dataShards, p.parityShards, p.shardSize;
      blockLen, offset := p.blockLen, p.blockOffset;
      shards := seq(p.dataShards + p.parityShards, _ => None);
      have, reserved := 0, Footprint(p);
    }

    ghost predicate Shape()
      reads this`shards
    {
      |shards| == dataShards + parityShards
    }

    ghost function Held(): map<nat, Data>
      reads this`shards
    {
      map i | 0 <= i < |shards| && shards[i].Some? :: shards[i].value
    }

    ghost function Model(): Block
      reads this
    {
      Block(dataShards, parityShards, shardSize, blockLen, offset, Held(), have, reserved)
    }

    /** addShard: keeps a copy of a shard it does not have yet. */
    method AddShard(p: Wire.Packet) returns (isNew: bool)
      requires Sane(p) && Shape() && p.shardIndex < |shards|
      modifies this`shards, this`have
      ensures Shape()
      ensures isNew <==> p.shardIndex !in old(Model()).shards
      ensures Model() == if isNew then Machine.AddShard(old(Model()), p) else old(Model())
    {
      if shards[p.shardIndex].Some? {
        return false;
      }
      shards := shards[p.shardIndex := Some(p.shard)];
      have := have + 1;
      isNew := true;
      assert Held() == old(Held())[p.shardIndex := p.shard];
    }

    lemma SlotsAre()
      requires Shape()
      ensures Slots(Model()) == shards
    {
      var slots := Slots(Model());
      forall i | 0 <= i < |shards| ensures slots[i] == shards[i] {
        assert i in Held() <==> shards[i].Some?;
      }
    }

    /** reconstruct: fills in the missing data shards; the library is asked only when some are missing. */
    method Reconstruct(lib: Lib) returns (ok: bool)
      requires Shape()
      modifies this`shards
      ensures Shape()
      ensures ok <==> DataShards(lib, old(Model())).Some?
      ensures ok ==> forall i | 0 <= i < dataShards ::
        shards[i] == Some(DataShards(lib, old(Model())).value[i])
    {
      SlotsAre();
      var i := 0;
      while i < dataShards && shards[i].Some?
        invariant i <= dataShards && forall k | 0 <= k < i :: shards[k].Some?
      {
        i := i + 1;
      }
      assert (forall k | 0 <= k < dataShards :: k in Held()) <==> i == dataShards by {
        assert i < dataShards ==> i !in Held();
      }
      if i == dataShards {
        return true;
      }
      var rebuilt := lib.rebuild(dataShards, parityShards, shards);
      if rebuilt.None? || |rebuilt.value| < dataShards
         || exists k | 0 <= k < dataShards :: |rebuilt.value[k]| != shardSize {
        return false;
      }
      var before := shards;
      i := 0;
      while i < dataShards
        invariant i <= dataShards && |shards| == |before|
        invariant forall k | 0 <= k < i ::
          shards[k] == if before[k].Some? then before[k] else Some(rebuilt.value[k])
        invariant forall k | i <= k < |before| :: shards[k] == before[k]
      {
        if shards[i].None? {
          shards := shards[i := Some(rebuilt.value[i])];
        }
        i := i + 1;
      }
      ok := true;
    }
  }

  /** diodeTransfer. */
  class ActiveTransfer {
    const id: Data
    const name: Data
    const fileSize: nat
    const sha256: Data
    const blockCount: nat
    const tmp: Data
    var blocks: map<nat, OpenBlock>
    var blocksDone: seq<u64>
    var doneCount: nat
    var written: nat
    var lastSeen: int
    var buffered: int

    constructor (p: Wire.Packet, path: Data)
      requires Sane(p)
      ensures Shape() && blocks == map[] && Model() == NewTransfer(p, path)
      ensures blocksDone == Bitset.Empty(p.blockCount)
    {
      id, name, fileSize, sha256 := p.transferID, p.name, p.fileSize, p.sha256;
      blockCount, tmp := p.blockCount, path;
      blocks, blocksDone := map[], Bitset.Empty(p.blockCount);
      doneCount, written, lastSeen, buffered := 0, 0, 0, 0;
      new;
      Bitset.EmptyMembers(p.blockCount);
    }

    ghost predicate Shape()
      reads this`blocks, this`blocksDone, blocks.Values`shards
    {
      && |blocksDone| == Bitset.WordCount(blockCount)
      && (forall b | b in blocks :: blocks[b].Shape())
      && (forall b, c | b in blocks && c in blocks && b != c :: blocks[b] != blocks[c])
    }

    ghost function Blocks(): map<nat, Block>
      reads this, blocks.Values
    {
      map b | b in blocks :: blocks[b].Model()
    }

    ghost function Model(): Transfer
      reads this, blocks.Values
    {
      Transfer(id, name, fileSize, sha256, blockCount, tmp, Blocks(),
               Bitset.Members(blocksDone), doneCount, written, lastSeen, buffered)
    }

    /** blockDone. */
    predicate BlockDone(bi: nat): (done: bool)
      requires bi / 64 < |blocksDone|
      reads this`blocksDone
      ensures done <==> bi in Bitset.Members(blocksDone)
    {
      Bitset.Test(blocksDone, bi)
    }

    /** setBlockDone: sets one bit of the bitset and counts it. */
    method SetBlockDone(bi: nat)
      requires Shape() && bi < blockCount
      modifies this`blocksDone, this`doneCount
      ensures Shape()
      ensures Model() == old(Model()).(blocksDone := old(Model()).blocksDone + {bi}, doneCount := old(Model()).doneCount + 1)
    {
      Bitset.SetMembers(blocksDone, bi);
      blocksDone := Bitset.Set(blocksDone, bi);
      doneCount := doneCount + 1;
    }

    /** Notes that a packet arrived. */
    method Seen(now: int)
      requires Shape()
      modifies this`lastSeen
      ensures Shape() && Model() == old(Model()).(lastSeen := now)
    {
      lastSeen := now;
      assert Blocks() == old(Blocks());
    }

    lemma SameBlocks(blocks: map<nat, Block>)
      requires this.blocks.Keys == blocks.Keys && forall b | b in blocks :: this.blocks[b].Model() == blocks[b]
      ensures Blocks() == blocks
    {
    }

    lemma ModelAt(bi: nat)
      requires bi in blocks
      ensures bi in Model().blocks && Model().blocks[bi] == blocks[bi].Model()
      ensures Model().blocks.Keys == blocks.Keys && forall b | b in blocks :: Model().blocks[b] == blocks[b].Model()
    {
    }

    lemma DistinctFrom(bi: nat)
      requires Shape() && bi in blocks
      ensures forall c | c in blocks && c != bi :: blocks[c] != blocks[bi]
      ensures blocks[bi].Shape()
    {
    }

    /** Puts a new block into the map. */
    method PutIn(bi: nat, b: OpenBlock)
      requires Shape() && bi !in blocks && b.Shape() && b !in blocks.Values
      modifies this`blocks
      ensures Shape() && blocks == old(blocks)[bi := b]
      ensures Model() == old(Model()).(blocks := old(Model()).blocks[bi := b.Model()])
    {
      blocks := blocks[bi := b];
      assert Blocks() == old(Blocks())[bi := b.Model()];
    }

    /** Takes an open block out of the map. */
    method TakeOut(bi: nat) returns (b: OpenBlock)
      requires Shape() && bi in blocks
      modifies this`blocks
      ensures Shape() && b == old(blocks[bi]) && b !in blocks.Values && blocks == old(blocks) - {bi}
      ensures Model() == old(Model()).(blocks := old(Model()).blocks - {bi})
    {
      b := blocks[bi];
      blocks := blocks - {bi};
      assert Blocks() == old(Blocks()) - {bi};
    }

    /** The scan of evictOpenBlock for the lowest open block. */
    method OldestBlock() returns (oldest: nat)
      requires blocks != map[]
      ensures IsLeast(oldest, blocks.Keys)
    {
      var rest := blocks.Keys;
      oldest :| oldest in rest;
      rest := rest - {oldest};
      while rest != {}
        invariant rest <= blocks.Keys && oldest in blocks.Keys
        invariant forall b | b in blocks.Keys && b !in rest :: oldest <= b
        decreases |rest|
      {
        var b :| b in rest;
        if b < oldest {
          oldest := b;
        }
        rest := rest - {b};
      }
    }
  }

  /** encodeBlockBitset before base64. */
  method EncodeBitset(bits: seq<u64>) returns (raw: Data)
    ensures raw == Bitset.Encode(bits)
  {
    raw := [];
    for i := 0 to |bits|
      invariant raw == Bitset.Encode(bits[..i])
    {
      raw := raw + PutLE(bits[i], 8);
      assert bits[..i + 1][..i] == bits[..i] && bits[..i + 1][i] == bits[i];
    }
    assert bits[..|bits|] == bits;
  }

  lemma {:induction false} WordAt(raw: Data, i: nat)
    requires |raw| % 8 == 0 && 8 * i + 8 <= |raw|
    ensures Bitset.Words(raw[..8 * i + 8]) == Bitset.Words(raw[..8 * i]) + [GetLE(raw[8 * i..8 * i + 8])]
  {
    var r := raw[..8 * i + 8];
    assert r[..8 * i] == raw[..8 * i] && r[8 * i..] == raw[8 * i..8 * i + 8];
  }

  /** decodeBlockBitset after base64: the words and their population count, or nothing for a wrong
      length or bits beyond the block count. */
  method DecodeBitset(raw: Data, blockCount: nat) returns (r: Option<(seq<u64>, nat)>)
    ensures r.Some? <==> Bitset.Decode(raw, blockCount).Some?
    ensures r.Some? ==> r.value.0 == Bitset.Decode(raw, blockCount).value && r.value.1 == |Bitset.Members(r.value.0)|
  {
    hide GetLE, Pow256, Bitset.OnesCount, Bitset.Members, Bitset.ShiftRight;
    var words := Bitset.WordCount(blockCount);
    if |raw| != 8 * words {
      return None;
    }
    var bits: seq<u64>, done := [], 0;
    for i := 0 to words
      invariant |bits| == i && bits == Bitset.Words(raw[..8 * i]) && done == Bitset.PopCount(bits)
    {
      GetLEBound(raw[8 * i..8 * i + 8]);
      Widths();
      WordAt(raw, i);
      var w := GetLE(raw[8 * i..8 * i + 8]);
      assert (bits + [w])[..i] == bits;
      bits := bits + [w];
      done := done + Bitset.OnesCount(w);
    }
    assert raw[..8 * words] == raw;
    var tail := blockCount % 64;
    if tail != 0 && Bitset.ShiftRight(bits[words - 1], tail) != 0 {
      return None;
    }
    Bitset.PopCountIsCardinality(bits);
    r := Some((bits, done));
  }
}
