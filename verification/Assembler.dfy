/** diodeAssembler: the in-place reassembler, proved to do what the state machine says. */
module Assembler {
  import opened Bytes
  import opened Library
  import opened Landing
  import opened MapSum
  import opened Machine
  import opened Invariant
  import opened Preserve
  import opened Objects
  import Bitset
  import Wire

  class Assembler {
    const lib: Lib
    var disk: Disk // the landing directory as the operating system keeps it
    var active: map<Data, ActiveTransfer>
    var done: map<Data, int>
    var doneOrder: seq<Record>
    var doneNext: nat
    var buffered: int
    var activeSize: int

    constructor (lib: Lib, disk: Disk)
      ensures Valid() && Model() == Sys(IDLE, disk) && this.lib == lib && fresh(Repr())
    {
      this.lib, this.disk := lib, disk;
      active, done, doneOrder, doneNext, buffered, activeSize := map[], map[], [], 0, 0, 0;
      new;
      assert Transfers() == map[];
      IdleIsOk(disk);
    }

    /** The block objects of the active transfers. */
    ghost function BlockObjects(): set<OpenBlock>
      reads this`active, active.Values`blocks
    {
      set id, b | id in active && b in active[id].blocks :: active[id].blocks[b]
    }

    ghost function Repr(): set<object>
      reads this, active.Values
    {
      {this} + active.Values + BlockObjects()
    }

    /** Every transfer and every block is one object, used once. */
    ghost predicate Shape()
      reads this, active.Values, BlockObjects()
    {
      && (forall id | id in active :: active[id].id == id && active[id].Shape())
      && (forall id, other, b, c |
            id in active && other in active && id != other && b in active[id].blocks && c in active[other].blocks ::
            active[id].blocks[b] != active[other].blocks[c])
    }

    ghost function Transfers(): map<Data, Transfer>
      reads this`active, active.Values, BlockObjects()
    {
      map id | id in active :: active[id].Model()
    }

    ghost function Model(): Sys
      reads this, active.Values, BlockObjects()
    {
      Sys(Asm(Transfers(), done, doneOrder, doneNext, buffered, activeSize), disk)
    }

    ghost predicate Valid()
      reads this, active.Values, BlockObjects()
    {
      Shape() && Inv(Model())
    }

    /** releaseBlock. */
    method ReleaseBlock(t: ActiveTransfer, b: OpenBlock)
      modifies this`buffered, t`buffered, b`reserved
      ensures buffered == old(buffered) - old(b.reserved) && t.buffered == old(t.buffered) - old(b.reserved)
      ensures b.reserved == 0
    {
      if b.reserved == 0 {
        return;
      }
      t.buffered := t.buffered - b.reserved;
      buffered := buffered - b.reserved;
      b.reserved := 0;
    }

    /** Only the given transfer changed, in the fields of its model. */
    twostate lemma OneChanged(t: ActiveTransfer)
      requires old(Shape()) && t.id in old(active) && old(active)[t.id] == t
      requires active == old(active) && t.Shape()
      requires forall id | id in active && id != t.id :: unchanged(active[id])
      requires forall id, b | id in active && id != t.id && b in active[id].blocks :: unchanged(active[id].blocks[b])
      requires forall id, b, c | id in active && id != t.id && b in active[id].blocks && c in t.blocks ::
        active[id].blocks[b] != t.blocks[c]
      ensures Shape() && Transfers() == old(Transfers())[t.id := t.Model()]
    {
      forall id | id in active && id != t.id
        ensures active[id].Model() == old(active[id].Model()) && active[id].Shape()
      {
        assert active[id].blocks == old(active[id].blocks);
        assert old(active[id].Shape());
        forall b | b in active[id].blocks
          ensures active[id].blocks[b].Model() == old(active[id].blocks[b].Model()) && active[id].blocks[b].Shape()
        {
        }
        assert active[id].Blocks() == old(active[id].Blocks());
      }
    }

    /** Takes a block out of a transfer and returns its memory. */
    method DropBlock(t: ActiveTransfer, bi: nat)
      requires t.Shape() && bi in t.blocks
      modifies this`buffered, t`blocks, t`buffered, t.blocks.Values`reserved
      ensures t.Shape() && t.blocks == old(t.blocks) - {bi}
      ensures buffered == old(buffered) - old(t.buffered) + t.buffered
      ensures t.Model() == old(t.Model()).(
        blocks := old(t.Model()).blocks - {bi}, buffered := old(t.buffered) - old(t.blocks[bi].reserved))
    {
      var b := t.TakeOut(bi);
      ghost var after := t.Model();
      ReleaseBlock(t, b);
      t.SameBlocks(after.blocks);
    }

    /** evictOpenBlock. */
    method EvictOpenBlock(t: ActiveTransfer, newIndex: nat) returns (ok: bool)
      requires t.Shape()
      modifies this`buffered, t`blocks, t`buffered, t.blocks.Values`reserved
      ensures t.Shape() && t.blocks.Keys <= old(t.blocks.Keys) && forall c | c in t.blocks :: t.blocks[c] == old(t.blocks)[c]
      ensures ok <==> Evict(old(t.Model()), newIndex).Some?
      ensures t.Model() == if ok then Evict(old(t.Model()), newIndex).value else old(t.Model())
      ensures buffered == old(buffered) - old(t.buffered) + t.buffered
    {
      hide Least, IsLeast, Evict, BlockObjects, Repr;
      ghost var model := t.Model();
      assert model.blocks.Keys == t.blocks.Keys;
      if t.blocks == map[] {
        NothingToEvict(model, newIndex);
        return false;
      }
      var oldest := t.OldestBlock();
      EvictIs(model, newIndex, oldest);
      if newIndex <= oldest {
        return false;
      }
      assert model.blocks[oldest] == t.blocks[oldest].Model();
      DropBlock(t, oldest);
      ok := true;
    }

    static lemma NothingToEvict(t: Transfer, newIndex: nat)
      requires t.blocks.Keys == {}
      ensures Evict(t, newIndex).None?
    {
    }
  
    /** The transfer after looking for a packet's block in it. */
    static ghost function Located(t: Transfer, buffered: int, p: Wire.Packet): Transfer
      requires Sane(p)
    {
      if p.blockIndex in t.blocks then t
      else
        var room := MakeRoom(t, buffered, p);
        if room.ok then Machine.OpenBlock(room.transfer, p) else room.transfer
    }

    /** Whether the packet has a block then. */
    static ghost predicate IsLocated(t: Transfer, buffered: int, p: Wire.Packet)
      requires Sane(p)
    {
      if p.blockIndex in t.blocks then SameGeometry(t.blocks[p.blockIndex], p) else MakeRoom(t, buffered, p).ok
    }

    /** blockFor, within one transfer: finds the packet's block or opens it, evicting if it must. */
    method FindBlock(t: ActiveTransfer, p: Wire.Packet) returns (b: OpenBlock?)
      requires t.Shape() && Sane(p)
      modifies this`buffered, t`blocks, t`buffered, t.blocks.Values`reserved
      ensures t.Shape()
      ensures forall c | c in t.blocks :: fresh(t.blocks[c]) || (c in old(t.blocks) && t.blocks[c] == old(t.blocks)[c])
      ensures buffered == old(buffered) - old(t.buffered) + t.buffered
      ensures t.Model() == Located(old(t.Model()), old(buffered), p)
      ensures b != null <==> IsLocated(old(t.Model()), old(buffered), p)
      ensures b != null ==> p.blockIndex in t.blocks && t.blocks[p.blockIndex] == b
    {
      hide Evict, Sane, Footprint, BlockObjects, Repr;
      ghost var model := t.Model();
      ghost var total := buffered;
      assert model.blocks.Keys == t.blocks.Keys;
      if p.blockIndex in t.blocks {
        var known := t.blocks[p.blockIndex];
        assert model.blocks[p.blockIndex] == known.Model();
        if known.dataShards != p.dataShards || known.parityShards != p.parityShards
           || known.shardSize != p.shardSize || known.blockLen != p.blockLen || known.offset != p.blockOffset {
          return null;
        }
        return known;
      }
      SaneIndex(p);
      if |t.blocks| >= MAX_OPEN_BLOCKS {
        assert |t.blocks.Keys| == |model.blocks.Keys|;
        var evicted := EvictOpenBlock(t, p.blockIndex);
        if !evicted {
          return null;
        }
      } else {
        assert |model.blocks.Keys| == |t.blocks.Keys|;
      }
      assert MakeRoom(model, total, p) == Room(t.Model(), RoomLeftIn(t, p));
      if !RoomLeftIn(t, p) {
        return null;
      }
      b := OpenIn(t, p);
    }

    /** The two budget checks of blockFor: the transfer's, then the global one. */
    predicate RoomLeftIn(t: ActiveTransfer, p: Wire.Packet)
      requires Sane(p)
      reads this`buffered, t`buffered
    {
      Footprint(p) <= MAX_TRANSFER_BUFFERED - t.buffered && Footprint(p) <= MAX_BUFFERED - buffered
    }

    /** Opens a block, reserving its full reconstruction footprint. */
    method OpenIn(t: ActiveTransfer, p: Wire.Packet) returns (b: OpenBlock)
      requires t.Shape() && Sane(p) && p.blockIndex !in t.blocks
      modifies this`buffered, t`blocks, t`buffered
      ensures t.Shape() && fresh(b) && t.blocks == old(t.blocks)[p.blockIndex := b]
      ensures buffered == old(buffered) - old(t.buffered) + t.buffered
      ensures t.Model() == Machine.OpenBlock(old(t.Model()), p)
    {
      hide Footprint, Sane, ActiveTransfer.Shape, Bitset.Members, Bitset.WordCount, BlockObjects, Repr;
      SaneIndex(p);
      b := new OpenBlock(p);
      t.PutIn(p.blockIndex, b);
      ghost var model := t.Model();
      t.buffered := t.buffered + b.reserved;
      buffered := buffered + b.reserved;
      t.SameBlocks(model.blocks);
    }

    static lemma SaneIndex(p: Wire.Packet)
      requires Sane(p)
      ensures p.blockIndex >= 0
    {
    }
  
    /** The writing loop of completeBlock: one WriteAt a data shard, the last one cut to the block. */
    method WriteBlock(path: Data, b: OpenBlock, ghost data: seq<Data>, writes: nat) returns (ok: bool)
      requires b.Shape() && |data| == b.dataShards && forall i | 0 <= i < |data| :: b.shards[i] == Some(data[i])
      requires forall i | 0 <= i < |data| :: |data[i]| == b.shardSize
      modifies this`disk
      ensures (disk, ok) == WriteShards(old(disk), path, b.offset, data, b.blockLen, writes)
    {
      hide Landing.WriteAt, BlockObjects, Repr;
      var i: nat, remaining: nat, off: nat := 0, b.blockLen, b.offset;
      assert data[0..] == data;
      while i < b.dataShards && remaining > 0
        invariant i <= b.dataShards && i <= writes
        invariant WriteShards(old(disk), path, b.offset, data, b.blockLen, writes)
               == WriteShards(disk, path, off, data[i..], remaining, writes - i)
      {
        var n := Min(b.shardSize, remaining);
        if i == writes {
          return false;
        }
        assert data[i..][1..] == data[i + 1..];
        disk := Landing.WriteAt(disk, path, off, b.shards[i].value[..n]);
        off := off + n;
        remaining := remaining - n;
        i := i + 1;
      }
      assert i == b.dataShards ==> data[i..] == [];
      ok := true;
    }

    /** completeBlock: reconstructs, writes, and closes a block that has gathered enough shards. */
    method CompleteBlock(t: ActiveTransfer, bi: nat, b: OpenBlock, io: Io) returns (ok: bool)
      requires t.Shape() && bi in t.blocks && t.blocks[bi] == b && bi < t.blockCount
      requires Sized(b.Model())
      modifies this`disk, this`buffered, t`blocks, t`blocksDone, t`doneCount, t`written, t`buffered
      modifies b`shards, t.blocks.Values`reserved
      ensures t.Shape()
      ensures var data := DataShards(lib, old(b.Model()));
        if data.None? then !ok && disk == old(disk)
        else (disk, ok) == WriteShards(old(disk), t.tmp, b.offset, data.value, b.blockLen, io.shardWrites)
      ensures ok ==> t.Model() == Completed(old(t.Model()), bi, old(b.Model()))
      ensures ok ==> buffered == old(buffered) - old(t.buffered) + t.buffered
      ensures ok ==> t.blocks == old(t.blocks) - {bi}
      ensures !ok ==> unchanged(t) && buffered == old(buffered)
      ensures !ok ==> Reserved(t.Model().blocks) == Reserved(old(t.Model()).blocks)
    {
      hide DataShards, WriteShards, Bitset.Members, Bitset.WordCount, BlockObjects, Repr;
      ghost var model := t.Model();
      ghost var blk := b.Model();
      ghost var others := model.blocks - {bi};
      assert forall c | c in t.blocks && c != bi :: t.blocks[c] != b;
      var rebuilt := b.Reconstruct(lib);
      if !rebuilt {
        SameReserved(t);
        return false;
      }
      ghost var data := DataShards(lib, blk).value;
      DataSizes(lib, blk);
      ok := WriteBlock(t.tmp, b, data, io.shardWrites);
      if !ok {
        SameReserved(t);
        return;
      }
      CloseBlock(t, bi, b, model, blk);
    }

    /** The bookkeeping of completeBlock once the bytes are on disk. */
    method CloseBlock(t: ActiveTransfer, bi: nat, b: OpenBlock, ghost model: Transfer, ghost blk: Block)
      requires t.Shape() && bi in t.blocks && t.blocks[bi] == b && bi < t.blockCount
      requires t.Model() == model.(blocks := t.Model().blocks)
      requires t.Model().blocks - {bi} == model.blocks - {bi} && b.reserved == blk.reserved && b.blockLen == blk.blockLen
      modifies this`buffered, t`blocks, t`blocksDone, t`doneCount, t`written, t`buffered, t.blocks.Values`reserved
      ensures t.Shape() && t.Model() == Completed(model, bi, blk) && t.blocks == old(t.blocks) - {bi}
      ensures buffered == old(buffered) - old(t.buffered) + t.buffered
    {
      hide Bitset.Members, Bitset.WordCount, BlockObjects, Repr;
      DropBlock(t, bi);
      t.SetBlockDone(bi);
      ghost var after := t.Model();
      t.written := t.written + b.blockLen;
      t.SameBlocks(after.blocks);
    }

    /** Every shard a block holds has its shard size. */
    static ghost predicate Sized(b: Block)
    {
      forall i | i in b.shards :: |b.shards[i]| == b.shardSize
    }

    static lemma DataSizes(lib: Lib, b: Block)
      requires DataShards(lib, b).Some? && Sized(b)
      ensures var data := DataShards(lib, b).value;
        |data| == b.dataShards && forall i | 0 <= i < |data| :: |data[i]| == b.shardSize
    {
    }
  
    // ---- the end of a transfer ----

    /** Releases some blocks of a transfer, in whatever order the map iteration takes. */
    method ReleaseEach(t: ActiveTransfer, blocks: map<nat, OpenBlock>, ghost sizes: map<nat, nat>)
      requires forall c, d | c in blocks && d in blocks && c != d :: blocks[c] != blocks[d]
      requires sizes.Keys == blocks.Keys && forall c | c in blocks :: blocks[c].reserved == sizes[c]
      modifies this`buffered, t`buffered, blocks.Values`reserved
      ensures buffered == old(buffered) - Sum(sizes)
    {
      hide *;
      var rest := blocks.Keys;
      ghost var left := sizes;
      while rest != {}
        invariant rest <= blocks.Keys && left.Keys == rest
        invariant forall c | c in rest :: blocks[c].reserved == left[c]
        invariant buffered == old(buffered) - Sum(sizes) + Sum(left)
        decreases |rest|
      {
        var c :| c in rest;
        ReleaseNext(t, blocks, c, blocks[c], rest, left);
        rest := rest - {c};
        left := left - {c};
      }
      EmptySum(left);
    }

    /** One turn of that loop. */
    method ReleaseNext(t: ActiveTransfer, ghost blocks: map<nat, OpenBlock>, ghost c: nat, b: OpenBlock,
                       ghost rest: set<nat>, ghost left: map<nat, nat>)
      requires c in rest && rest <= blocks.Keys && left.Keys == rest && blocks[c] == b
      requires forall d | d in rest && d != c :: blocks[c] != blocks[d]
      requires forall d | d in rest :: blocks[d].reserved == left[d]
      modifies this`buffered, t`buffered, b`reserved
      ensures forall d | d in rest - {c} :: blocks[d].reserved == (left - {c})[d]
      ensures buffered == old(buffered) - Sum(left) + Sum(left - {c})
    {
      hide Sum, BlockObjects, Repr;
      SumRemove(left, c);
      ReleaseBlock(t, b);
    }

    /** Releases every block of a transfer and forgets them. */
    method ReleaseAll(t: ActiveTransfer)
      requires t.Shape()
      modifies this`buffered, t`blocks, t`buffered, t.blocks.Values`reserved
      ensures buffered == old(buffered) - Sum(Reserved(old(t.Blocks()))) && t.Shape()
      ensures t.Model() == old(t.Model()).(blocks := map[], buffered := t.buffered)
    {
      hide Sum, Bitset.WordCount, Bitset.Members, BlockObjects, Repr;
      ReleaseEach(t, t.blocks, Reserved(t.Blocks()));
      t.blocks := map[];
      assert t.Blocks() == map[];
    }

    static lemma EmptySum(m: map<nat, nat>)
      requires m == map[]
      ensures Sum(m) == 0
    {
    }

    /** removeActive. */
    method RemoveActive(t: ActiveTransfer)
      requires Shape() && t.id in active && active[t.id] == t
      modifies this`active, this`activeSize, this`buffered, t`blocks, t`buffered, t.blocks.Values`reserved
      ensures Shape() && Model() == old(Model()).(asm := Machine.RemoveActive(old(Model()).asm, old(t.Model())))
      ensures t.Shape() && t.Model() == old(t.Model()).(blocks := map[], buffered := t.buffered)
      ensures active == old(active) - {t.id}
    {
      hide Reserved, Sum, Bitset.Members, Bitset.WordCount, BlockObjects, Repr;
      ghost var before := Model();
      ghost var model := t.Model();
      active := active - {t.id};
      activeSize := activeSize - t.fileSize;
      assert t.Model() == model;
      ReleaseAll(t);
      OthersKept(t);
      assert Model().asm == Machine.RemoveActive(before.asm, model);
    }

    /** Taking a transfer out leaves the others as they were. */
    twostate lemma OthersKept(t: ActiveTransfer)
      requires old(Shape()) && t.id in old(active) && old(active)[t.id] == t && active == old(active) - {t.id}
      requires forall id | id in active :: unchanged(active[id])
      requires forall id, b | id in active && b in active[id].blocks :: unchanged(active[id].blocks[b])
      ensures Shape() && Transfers() == old(Transfers()) - {t.id}
    {
      forall id | id in active
        ensures active[id].Model() == old(active[id].Model()) && active[id].Shape()
      {
        assert old(active[id].Shape());
        forall b | b in active[id].blocks
          ensures active[id].blocks[b].Model() == old(active[id].blocks[b].Model()) && active[id].blocks[b].Shape()
        {
        }
        assert active[id].Blocks() == old(active[id].Blocks());
      }
    }

    /** rememberDone. */
    method RememberDone(id: Data, now: int)
      requires RingFits(Asm(map[], done, doneOrder, doneNext, buffered, activeSize))
      modifies this`done, this`doneOrder, this`doneNext
      ensures var r := Machine.RememberDone(Asm(map[], old(done), old(doneOrder), old(doneNext), buffered, activeSize), id, now);
        done == r.done && doneOrder == r.doneOrder && doneNext == r.doneNext
    {
      if id in done {
        done := done[id := now];
        return;
      }
      if |doneOrder| < MAX_REMEMBERED {
        doneOrder := doneOrder + [Record(id, now)];
      } else {
        var oldest := doneOrder[doneNext];
        if oldest.id in done && done[oldest.id] == oldest.at {
          done := done - {oldest.id};
        }
        doneOrder := doneOrder[doneNext := Record(id, now)];
        doneNext := (doneNext + 1) % MAX_REMEMBERED;
      }
      done := done[id := now];
    }

    lemma RememberedModel(asm: Asm, id: Data, now: int)
      requires RingFits(asm)
      ensures RingFits(Asm(map[], asm.done, asm.doneOrder, asm.doneNext, asm.buffered, asm.activeSize))
      ensures var r := Machine.RememberDone(Asm(map[], asm.done, asm.doneOrder, asm.doneNext, asm.buffered, asm.activeSize), id, now);
        Machine.RememberDone(asm, id, now) == asm.(done := r.done, doneOrder := r.doneOrder, doneNext := r.doneNext)
    {
    }

    /** A change of the assembler's own fields leaves the transfers as they were. */
    twostate lemma Untouched()
      requires old(Shape()) && active == old(active)
      requires forall id | id in active :: unchanged(active[id])
      requires forall id, b | id in active && b in active[id].blocks :: unchanged(active[id].blocks[b])
      ensures Shape() && Transfers() == old(Transfers())
    {
      forall id | id in active
        ensures active[id].Model() == old(active[id].Model()) && active[id].Shape()
      {
        assert old(active[id].Shape());
        forall b | b in active[id].blocks
          ensures active[id].blocks[b].Model() == old(active[id].blocks[b].Model()) && active[id].blocks[b].Shape()
        {
        }
        assert active[id].Blocks() == old(active[id].Blocks());
      }
    }

    /** Every transfer ends by leaving the active ones and having its ID remembered. */
    method EndTransfer(t: ActiveTransfer, now: int)
      requires Shape() && t.id in active && active[t.id] == t && RingFits(Model().asm)
      modifies this, t`blocks, t`buffered, t.blocks.Values`reserved
      ensures Shape() && disk == old(disk) && active == old(active) - {t.id}
      ensures RingFits(Machine.RemoveActive(old(Model()).asm, old(t.Model())))
      ensures Model().asm == Machine.RememberDone(Machine.RemoveActive(old(Model()).asm, old(t.Model())), t.id, now)
    {
      hide Reserved, Sum, Machine.RememberDone, Machine.RemoveActive, RingFits, Shape, BlockObjects, Repr;
      ghost var before := Model().asm;
      ghost var model := t.Model();
      RemovedRing(before, model);
      RemoveActive(t);
      ghost var asm := Model().asm;
      RememberedModel(asm, t.id, now);
      label removed:
      RememberDone(t.id, now);
      Untouched@removed();
    }

    /** failTransfer. */
    method FailTransfer(t: ActiveTransfer, now: int)
      requires Shape() && t.id in active && active[t.id] == t && RingFits(Model().asm)
      modifies this, t`blocks, t`buffered, t.blocks.Values`reserved
      ensures Shape() && Model() == Fail(old(Model()), old(t.Model()), now) && active == old(active) - {t.id}
    {
      hide Reserved, Sum, Machine.RememberDone, Machine.RemoveActive, RingFits, Shape, BlockObjects, Repr;
      EndTransfer(t, now);
      label ended:
      disk := Landing.Remove(disk, t.tmp);
      Untouched@ended();
    }

    static lemma RemovedRing(asm: Asm, t: Transfer)
      requires RingFits(asm)
      ensures RingFits(Machine.RemoveActive(asm, t))
    {
    }
  
    /** landFile: whether the file landed, and whether its temporary file is already closed and gone. */
    method LandFile(t: ActiveTransfer, io: Io) returns (ok: bool, gone: bool)
      modifies this`disk
      ensures Land(lib, old(disk), t.Model(), io) ==
        if ok then RemovePartial(disk, t.name) else if gone then disk else Landing.Remove(disk, t.tmp)
    {
      hide Landing.Remove, Landing.Truncate, Landing.Rename, RemovePartial, Bitset.Members, BlockObjects, Repr;
      if t.written != t.fileSize || !io.truncate {
        return false, false;
      }
      disk := Landing.Truncate(disk, t.tmp, t.fileSize);
      if !io.read || lib.sha(Content(disk.files, t.tmp)) != t.sha256 {
        return false, false;
      }
      if !io.sync || !io.close {
        return false, false;
      }
      if !io.rename {
        disk := Landing.Remove(disk, t.tmp);
        return false, true;
      }
      disk := Landing.Rename(disk, t.tmp, t.name);
      ok, gone := io.syncDir, true;
    }

    /** finishTransfer. */
    method FinishTransfer(t: ActiveTransfer, now: int, io: Io)
      requires Shape() && t.id in active && active[t.id] == t && RingFits(Model().asm)
      modifies this, t`blocks, t`buffered, t.blocks.Values`reserved
      ensures Shape() && Model() == Finish(lib, old(Model()), old(t.Model()), now, io)
      ensures active == old(active) - {t.id}
    {
      hide Reserved, Sum, Machine.RememberDone, Machine.RemoveActive, RingFits, Shape, Land, Landing.Remove, RemovePartial, BlockObjects, Repr;
      ghost var model := t.Model();
      EndTransfer(t, now);
      label ended:
      LandSame(disk, model, t.Model(), io);
      var ok, gone := LandFile(t, io);
      if ok {
        disk := RemovePartial(disk, t.name);
      } else if !gone {
        disk := Landing.Remove(disk, t.tmp);
      }
      Untouched@ended();
    }

    lemma LandSame(d: Disk, t: Transfer, u: Transfer, io: Io)
      requires t.tmp == u.tmp && t.name == u.name && t.fileSize == u.fileSize && t.sha256 == u.sha256 && t.written == u.written
      ensures Land(lib, d, t, io) == Land(lib, d, u, io)
    {
    }

    // ---- opening a transfer ----

    /** probePartial: the bitset, count and sizes of a partial that describes exactly this content. */
    method ProbePartial(p: Wire.Packet) returns (r: Option<Probed>)
      requires Sane(p)
      ensures r.Some? <==> Probe(disk.files, p).Some?
      ensures r.Some? ==> ResumeOf(r.value) == Probe(disk.files, p).value
      ensures r.Some? ==> |r.value.bits| == Bitset.WordCount(p.blockCount) && r.value.done == |Bitset.Members(r.value.bits)|
    {
      hide Bitset.Decode, Bitset.Members, StatePath, PartPath, BlockObjects, Repr;
      var st := LoadState(disk.files, StatePath(p.name));
      if st.None? || !Describes(st.value, p.name, p.fileSize, p.sha256, p.blockCount) || st.value.blocksDone.None? {
        return None;
      }
      var decoded := DecodeBitset(st.value.blocksDone.value, p.blockCount);
      if decoded.None? {
        return None;
      }
      var (bits, done) := decoded.value;
      if done != st.value.doneCount || done == 0 || done >= p.blockCount {
        return None;
      }
      if st.value.written < 1 || st.value.written > p.fileSize {
        return None;
      }
      var part := PartPath(p.name);
      if part !in disk.files || !disk.files[part].Plain? || |disk.files[part].bytes| > p.fileSize {
        return None;
      }
      Bitset.DecodeAccepts(st.value.blocksDone.value, p.blockCount);
      r := Some(Probed(bits, done, st.value.written, |disk.files[part].bytes|));
    }

    /** adoptPartialFile. */
    method AdoptPartialFile(name: Data, io: Io) returns (path: Option<Data>)
      modifies this`disk
      ensures (disk, path) == Adopt(old(disk), name, io)
    {
      hide Landing.Remove, Landing.Rename, BlockObjects, Repr;
      var tmp := CreateTemp(disk, name, io.adoptTemp);
      if tmp.None? {
        return None;
      }
      disk := tmp.value.0;
      if !io.adoptClose || !io.adoptRename || PartPath(name) !in disk.files {
        disk := Landing.Remove(disk, tmp.value.1);
        return None;
      }
      disk := Landing.Rename(disk, PartPath(name), tmp.value.1);
      disk := Landing.Remove(disk, StatePath(name));
      if !io.adoptOpen {
        disk := Landing.Remove(disk, tmp.value.1);
        return None;
      }
      path := Some(tmp.value.1);
    }

    /** openTransferFile. */
    method OpenTransferFile(name: Data, resuming: bool, io: Io) returns (file: Option<TempFile>)
      modifies this`disk
      ensures (disk, file) == OpenFile(old(disk), name, resuming, io)
    {
      hide Adopt, BlockObjects, Repr;
      if resuming {
        var path := AdoptPartialFile(name, io);
        if path.Some? {
          return Some(TempFile(path.value, true));
        }
      }
      var tmp := CreateTemp(disk, name, io.freshTemp);
      if tmp.None? {
        return None;
      }
      disk := tmp.value.0;
      file := Some(TempFile(tmp.value.1, false));
    }

    /** openTransfer: the transfer object on its file, with the adopted partial's progress. */
    method OpenTransfer(p: Wire.Packet, resume: Option<Probed>, io: Io) returns (t: ActiveTransfer?)
      requires Sane(p) && (resume.Some? ==> |resume.value.bits| == Bitset.WordCount(p.blockCount)
                                            && resume.value.done == |Bitset.Members(resume.value.bits)|)
      modifies this`disk
      ensures var (d, file) := OpenFile(old(disk), p.name, resume.Some?, io);
        && disk == d && (t != null <==> file.Some?)
        && (t != null ==> fresh(t) && t.Shape() && t.blocks == map[]
                          && t.Model() == Machine.Opened(p, file.value, ResumeOpt(resume)))
    {
      hide OpenFile, Sane, BlockObjects, Repr;
      var file := OpenTransferFile(p.name, resume.Some?, io);
      if file.None? {
        return null;
      }
      t := new ActiveTransfer(p, file.value.path);
      if file.value.adopted && resume.Some? {
        t.blocksDone, t.doneCount, t.written := resume.value.bits, resume.value.done, resume.value.written;
        assert t.Blocks() == map[];
      }
    }

    /** admitNewTransfer: name, size limit, slots, and the shared quota with an adopted partial credited. */
    method AdmitNewTransfer(p: Wire.Packet, resume: Option<Probed>, io: Io) returns (ok: bool)
      requires Sane(p) && Shape()
      ensures ok <==> Admits(lib, Model().asm, p, ResumeOpt(resume), io)
    {
      hide SizeLimit, Sane, Bitset.Members, BlockObjects, Repr;
      assert Transfers().Keys == active.Keys;
      assert |Transfers()| == |active|;
      if !lib.validName(p.name) {
        return false;
      }
      var limit := SizeLimit(p.name);
      if limit.None? || p.fileSize > limit.value {
        return false;
      }
      if |active| >= MAX_TRANSFERS || io.stored.None? {
        return false;
      }
      var stored := io.stored.value;
      if resume.Some? {
        stored := Max(stored - resume.value.diskSize, 0);
      }
      ok := !(stored > QUOTA - activeSize || p.fileSize > QUOTA - stored - activeSize);
    }

    /** A newly opened transfer joins the others. */
    twostate lemma Joined(new t: ActiveTransfer)
      requires old(Shape()) && t.id !in old(active) && active == old(active)[t.id := t]
      requires t.Shape() && t.blocks == map[]
      requires forall id | id in old(active) :: unchanged(old(active)[id])
      requires forall id, b | id in old(active) && b in old(active[id].blocks) :: unchanged(old(active[id].blocks[b]))
      ensures Shape() && Transfers() == old(Transfers())[t.id := t.Model()]
    {
      hide Bitset.Members, Bitset.WordCount, BlockObjects, Repr;
      forall id | id in old(active)
        ensures active[id].Model() == old(active[id].Model()) && active[id].Shape()
      {
        assert old(active[id].Shape());
        forall b | b in active[id].blocks
          ensures active[id].blocks[b].Model() == old(active[id].blocks[b].Model()) && active[id].blocks[b].Shape()
        {
        }
        assert active[id].Blocks() == old(active[id].Blocks());
      }
    }

    /** transferFor. */
    method TransferFor(p: Wire.Packet, io: Io) returns (t: ActiveTransfer?)
      requires Shape() && Sane(p)
      modifies this`disk, this`active, this`activeSize
      ensures Shape()
      ensures var f := Machine.TransferFor(lib, old(Model()), p, io);
        && Model() == f.sys && (t != null <==> f.transfer.Some?)
        && (t != null ==> t.id in active && active[t.id] == t && t.Model() == f.transfer.value)
      ensures t != null ==> if t.id in old(active) then t == old(active)[t.id] else fresh(t) && t.blocks == map[]
      ensures active == if t == null || t.id in old(active) then old(active) else old(active)[t.id := t]
    {
      hide Sane, Shape, OpenFile, Probe, Admits, Machine.Opened, ResumeOf, Bitset.Members, Bitset.WordCount, BlockObjects, Repr;
      if p.transferID in active {
        t := active[p.transferID];
        KnownTransfer(p.transferID);
        if t.name != p.name || t.fileSize != p.fileSize || t.blockCount != p.blockCount || t.sha256 != p.sha256 {
          return null;
        }
        return;
      }
      assert Transfers().Keys == active.Keys;
      var resume := ProbePartial(p);
      assert ResumeOpt(resume) == Probe(disk.files, p);
      Untouched();
      var ok := AdmitNewTransfer(p, resume, io);
      Untouched();
      if !ok || !io.mkdir {
        return null;
      }
      t := Register(p, resume, io);
    }

    /** The rest of transferFor for a transfer that was admitted: opening and registering it. */
    method Register(p: Wire.Packet, resume: Option<Probed>, io: Io) returns (t: ActiveTransfer?)
      requires Shape() && Sane(p) && p.transferID !in active
      requires resume.Some? ==> |resume.value.bits| == Bitset.WordCount(p.blockCount)
                                && resume.value.done == |Bitset.Members(resume.value.bits)|
      modifies this`disk, this`active, this`activeSize
      ensures Shape()
      ensures var f := Open(old(Model()), p, ResumeOpt(resume), io);
        && Model() == f.sys && (t != null <==> f.transfer.Some?)
        && (t != null ==> t.id in active && active[t.id] == t && t.Model() == f.transfer.value)
      ensures t != null ==> t.id !in old(active) && fresh(t) && t.blocks == map[]
      ensures active == if t == null then old(active) else old(active)[t.id := t]
    {
      hide Sane, Shape, OpenFile, Machine.Opened, ResumeOf, Bitset.Members, Bitset.WordCount, BlockObjects, Repr;
      ghost var attempt := OpenFile(disk, p.name, resume.Some?, io);
      t := OpenTransfer(p, resume, io);
      if t == null {
        Untouched();
        assert attempt.1.None? && disk == attempt.0;
        return;
      }
      OpenedId(p, OpenFile(old(disk), p.name, resume.Some?, io).1.value, ResumeOpt(resume));
      active := active[t.id := t];
      activeSize := activeSize + t.fileSize;
      Joined(t);
    }

    static lemma OpenedId(p: Wire.Packet, file: TempFile, resume: Option<Resume>)
      requires Sane(p)
      ensures var t := Machine.Opened(p, file, resume); t.id == p.transferID && t.fileSize == p.fileSize
    {
    }

    lemma KnownTransfer(id: Data)
      requires Shape() && id in active
      ensures active[id].id == id && active[id].Shape() && id in Transfers() && Transfers()[id] == active[id].Model()
    {
    }

    // ---- one datagram ----

    static lemma SameFail(s: Sys, t: Transfer, s1: Sys, t1: Transfer, now: int)
      requires RingFits(s.asm) && RingFits(s1.asm) && s1.disk == s.disk
      requires s1.asm == s.asm.(active := s1.asm.active) && s1.asm.active - {t.id} == s.asm.active - {t.id}
      requires t1.id == t.id && t1.fileSize == t.fileSize && t1.tmp == t.tmp && Reserved(t1.blocks) == Reserved(t.blocks)
      ensures Fail(s1, t1, now) == Fail(s, t, now)
    {
      hide Reserved, Sum, Machine.RememberDone;
    }

    static lemma SameCompleted(t: Transfer, bi: nat, b: Block, c: Block)
      ensures Completed(t.(blocks := t.blocks[bi := c]), bi, b) == Completed(t, bi, b)
    {
      assert t.blocks[bi := c] - {bi} == t.blocks - {bi};
    }

    /** completeBlock, seen from the whole assembler. */
    method CompleteInPlace(t: ActiveTransfer, bi: nat, b: OpenBlock, io: Io) returns (ok: bool)
      requires Shape() && t.id in active && active[t.id] == t && bi in t.blocks && t.blocks[bi] == b && bi < t.blockCount
      requires Sized(b.Model())
      modifies this`disk, this`buffered, t`blocks, t`blocksDone, t`doneCount, t`written, t`buffered
      modifies b`shards, t.blocks.Values`reserved
      ensures Shape() && active == old(active)
      ensures var data := DataShards(lib, old(b.Model()));
        if data.None? then !ok && disk == old(disk)
        else (disk, ok) == WriteShards(old(disk), t.tmp, b.offset, data.value, b.blockLen, io.shardWrites)
      ensures Model().asm == old(Model()).asm.(active := old(Model()).asm.active[t.id := t.Model()], buffered := buffered)
      ensures ok ==> t.Model() == Completed(old(t.Model()), bi, old(b.Model()))
      ensures ok ==> buffered == old(buffered) - old(t.buffered) + t.buffered && t.blocks == old(t.blocks) - {bi}
      ensures !ok ==> buffered == old(buffered) && t.blocks == old(t.blocks)
      ensures !ok ==> Reserved(t.Model().blocks) == Reserved(old(t.Model()).blocks)
    {
      hide DataShards, WriteShards, Shape, Completed, Sized, Reserved, Transfers, Bitset.Members, Bitset.WordCount, BlockObjects, Repr;
      KnownTransfer(t.id);
      DistinctBlocks(t);
      ok := CompleteBlock(t, bi, b, io);
      OneChanged(t);
    }

    /** The last part of handleDatagram: a block that has just gathered enough shards. */
    method CompleteAndFinish(t: ActiveTransfer, bi: nat, b: OpenBlock, now: int, io: Io, ghost s: Sys, ghost model: Transfer)
      requires Shape() && t.id in active && active[t.id] == t && bi in t.blocks && t.blocks[bi] == b && bi < t.blockCount
      requires Sized(b.Model())
      requires RingFits(s.asm) && t.Model() == model.(blocks := model.blocks[bi := b.Model()])
      requires bi in model.blocks && model.blocks[bi].reserved == b.reserved
      requires Model() == s.(asm := s.asm.(active := s.asm.active[t.id := t.Model()])) && model.buffered == t.buffered
      modifies this, t`blocks, t`blocksDone, t`doneCount, t`written, t`buffered, b`shards, t.blocks.Values`reserved
      ensures Shape() && Model() == Complete(lib, s, model, bi, old(b.Model()), now, io)
      ensures active == old(active) - {t.id} || (active == old(active) && t.blocks == old(t.blocks) - {bi})
    {
      hide Reserved, Sum, Transfers, DataShards, WriteShards, Shape, Finish, Fail, Completed, Bitset.Members, Bitset.WordCount, Sized, BlockObjects, Repr;
      ghost var blk := b.Model();
      t.ModelAt(bi);
      var ok := CompleteInPlace(t, bi, b, io);
      ghost var data := DataShards(lib, blk);
      if !ok {
        StoredReserved(model, bi, blk);
        Overwritten(s.asm.active, t.id, model.(blocks := model.blocks[bi := blk]), t.Model());
        FailStored(t, now, s.(disk := disk), model);
        return;
      }
      SameCompleted(model, bi, blk, blk);
      CompletedFrame(model, bi, blk);
      Rebuffered(s, model, model.(blocks := model.blocks[bi := blk]), Completed(model, bi, blk), buffered, disk);
      if t.doneCount == t.blockCount {
        FinishTransfer(t, now, io);
      }
    }

    /** failTransfer after a failed completion: the block's shards may have been filled in already. */
    method FailStored(t: ActiveTransfer, now: int, ghost s: Sys, ghost model: Transfer)
      requires Shape() && t.id in active && active[t.id] == t && model.id == t.id
      requires RingFits(s.asm) && disk == s.disk && Reserved(t.Model().blocks) == Reserved(model.blocks)
      requires model.fileSize == t.fileSize && model.tmp == t.tmp
      requires Model().asm == s.asm.(active := s.asm.active[t.id := t.Model()])
      modifies this, t`blocks, t`buffered, t.blocks.Values`reserved
      ensures Shape() && Model() == Fail(s, model, now) && active == old(active) - {t.id}
    {
      hide Reserved, Sum, Shape, Transfers, Fail, Bitset.Members, Bitset.WordCount, BlockObjects, Repr;
      SameFail(s, model, Model(), t.Model(), now);
      FailTransfer(t, now);
    }

    /** A failed completion leaves the reservations as they were. */
    twostate lemma SameReserved(t: ActiveTransfer)
      requires t.blocks == old(t.blocks) && forall c | c in t.blocks :: t.blocks[c].reserved == old(t.blocks[c].reserved)
      ensures Reserved(t.Model().blocks) == Reserved(old(t.Model()).blocks)
    {
      hide Bitset.Members, BlockObjects, Repr;
    }

    static lemma Repeated(s: Sys, t: Transfer, bi: nat)
      requires Registered(s, t) && bi in t.blocks
      ensures s.(asm := s.asm.(active := s.asm.active[t.id := t.(blocks := t.blocks[bi := t.blocks[bi]])])) == s
    {
      assert t.blocks[bi := t.blocks[bi]] == t.blocks;
      assert s.asm.active[t.id := t] == s.asm.active;
    }

    static lemma Overwritten<K, V>(m: map<K, V>, k: K, v: V, w: V)
      ensures m[k := v][k := w] == m[k := w]
    {
    }

    static lemma StoredReserved(model: Transfer, bi: nat, b: Block)
      requires bi in model.blocks && model.blocks[bi].reserved == b.reserved
      ensures Reserved(model.blocks[bi := b]) == Reserved(model.blocks)
    {
    }

    static lemma Rebuffered(s: Sys, model: Transfer, stored: Transfer, t: Transfer, buffered: int, d: Disk)
      requires stored.id == model.id && t.id == model.id && buffered == s.asm.buffered - model.buffered + t.buffered
      ensures Sys(s.asm.(active := s.asm.active[model.id := stored][model.id := t], buffered := buffered), d)
           == Rebuffer(s.(disk := d), model, t)
    {
      assert s.asm.active[model.id := stored][model.id := t] == s.asm.active[model.id := t];
    }

    lemma DistinctBlocks(t: ActiveTransfer)
      requires Shape() && t.id in active && active[t.id] == t
      ensures forall id, b, c | id in active && id != t.id && b in active[id].blocks && c in t.blocks ::
        active[id].blocks[b] != t.blocks[c]
      ensures forall id | id in active && id != t.id :: active[id] != t
    {
    }

    /** addShard, seen from the whole assembler. */
    method AddInPlace(t: ActiveTransfer, b: OpenBlock, p: Wire.Packet) returns (isNew: bool)
      requires Shape() && Sane(p) && t.id in active && active[t.id] == t && p.shardIndex < b.dataShards + b.parityShards
      requires p.blockIndex in t.blocks && t.blocks[p.blockIndex] == b
      modifies b`shards, b`have
      ensures Shape() && Model() == old(Model()).(asm := old(Model()).asm.(active := old(Model()).asm.active[t.id := t.Model()]))
      ensures isNew <==> p.shardIndex !in old(b.Model()).shards
      ensures b.Model() == if isNew then Machine.AddShard(old(b.Model()), p) else old(b.Model())
      ensures t.Model() == old(t.Model()).(blocks := old(t.Model()).blocks[p.blockIndex := b.Model()])
    {
      hide Sane, Shape, Transfers, Bitset.Members, Bitset.WordCount, Machine.AddShard, BlockObjects, Repr;
      ghost var model := t.Model();
      KnownTransfer(t.id);
      DistinctBlocks(t);
      t.ModelAt(p.blockIndex);
      t.DistinctFrom(p.blockIndex);
      isNew := b.AddShard(p);
      OneChanged(t);
      t.SameBlocks(model.blocks[p.blockIndex := b.Model()]);
    }

    /** handleDatagram from the packet's open block on. */
    method FeedBlock(t: ActiveTransfer, b: OpenBlock, p: Wire.Packet, now: int, io: Io)
      requires Valid() && Sane(p) && t.id in active && active[t.id] == t
      requires p.blockIndex in t.blocks && t.blocks[p.blockIndex] == b && SameGeometry(b.Model(), p)
      modifies this, t`blocks, t`blocksDone, t`doneCount, t`written, t`buffered, b`shards, b`have, t.blocks.Values`reserved
      ensures RingFits(old(Model()).asm) && p.blockIndex in old(t.Model()).blocks
      ensures Shape() && Model() == Feed(lib, old(Model()), old(t.Model()), p, now, io)
      ensures active == old(active) - {t.id} || (active == old(active) && t.blocks.Keys <= old(t.blocks.Keys))
      ensures t.id in active ==> forall c | c in t.blocks :: t.blocks[c] == old(t.blocks)[c]
    {
      hide Sane, Shape, Transfers, Complete, RingFits, Invariant.Inv, Bitset.Members, Bitset.WordCount, SameGeometry, Sized, Machine.AddShard, BlockObjects, Repr;
      ghost var s := Model();
      ghost var model := t.Model();
      KnownTransfer(t.id);
      RingFitsInv(s);
      t.ModelAt(p.blockIndex);
      FedFacts(s, model, p, b.Model());
      var isNew := AddInPlace(t, b, p);
      if !isNew {
        Repeated(s, model, p.blockIndex);
        return;
      }
      if b.have < b.dataShards {
        return;
      }
      CompleteAndFinish(t, p.blockIndex, b, now, io, s, model);
    }

    /** The shards a block holds and the one that arrives all have its shard size. */
    lemma FedFacts(s: Sys, t: Transfer, p: Wire.Packet, b: Block)
      requires Inv(s) && Registered(s, t) && Sane(p) && p.blockIndex in t.blocks && b == t.blocks[p.blockIndex]
      requires SameGeometry(b, p)
      ensures p.shardIndex < b.dataShards + b.parityShards && |p.shard| == b.shardSize && p.blockIndex >= 0 && p.shardIndex >= 0
      ensures p.blockIndex < t.blockCount && Sized(Machine.AddShard(b, p)) && Machine.AddShard(b, p).reserved == b.reserved
    {
      hide Inv, BlockObjects, Repr;
      BlockFacts(s, t, p.blockIndex);
    }

    /** blockFor, seen from the whole assembler. */
    method BlockFor(t: ActiveTransfer, p: Wire.Packet) returns (b: OpenBlock?)
      requires Shape() && Sane(p) && t.id in active && active[t.id] == t
      modifies this`buffered, t`blocks, t`buffered, t.blocks.Values`reserved
      ensures Shape()
      ensures forall c | c in t.blocks :: fresh(t.blocks[c]) || (c in old(t.blocks) && t.blocks[c] == old(t.blocks)[c])
      ensures var f := Machine.BlockFor(old(Model()), old(t.Model()), p);
        && Model() == f.sys && (b != null <==> f.transfer.Some?)
        && (b != null ==> t.Model() == f.transfer.value && p.blockIndex in t.blocks && t.blocks[p.blockIndex] == b)
    {
      hide Sane, Shape, Machine.BlockFor, Bitset.Members, Bitset.WordCount, Located, IsLocated, BlockObjects, Repr;
      ghost var s := Model();
      ghost var model := t.Model();
      KnownTransfer(t.id);
      DistinctBlocks(t);
      BlockForIs(s, model, p);
      b := FindBlock(t, p);
      OneChanged(t);
      assert Model() == Changed(s, model, t.Model());
    }

    /** blockFor at the level of the state machine, in the form the code produces. */
    static lemma BlockForIs(s: Sys, t: Transfer, p: Wire.Packet)
      requires Sane(p) && Registered(s, t)
      ensures var t1 := Located(t, s.asm.buffered, p);
        Machine.BlockFor(s, t, p) ==
          Found(Changed(s, t, t1), if IsLocated(t, s.asm.buffered, p) then Some(t1) else None)
    {
      hide Sane, MakeRoom, Machine.OpenBlock, SameGeometry;
      RoomId(t, s.asm.buffered, p);
      assert s.asm.active[t.id := t] == s.asm.active;
    }

    static ghost function Changed(s: Sys, t: Transfer, t1: Transfer): Sys
    {
      s.(asm := s.asm.(active := s.asm.active[t.id := t1], buffered := s.asm.buffered - t.buffered + t1.buffered))
    }

    static lemma RoomId(t: Transfer, buffered: int, p: Wire.Packet)
      requires Sane(p)
      ensures MakeRoom(t, buffered, p).transfer.id == t.id && Machine.OpenBlock(t, p).id == t.id
      ensures Machine.OpenBlock(MakeRoom(t, buffered, p).transfer, p).id == t.id
    {
      hide Sane, Footprint;
    }

    /** handleDatagram from the point where the packet's transfer is known. */
    method HandleKnown(t: ActiveTransfer, p: Wire.Packet, now: int, io: Io)
      requires Valid() && Sane(p) && t.id in active && active[t.id] == t && Announces(t.Model(), p)
      modifies this, t, t.blocks.Values
      ensures Shape() && RingFits(old(Model()).asm) && Model() == Rest(lib, old(Model()), old(t.Model()), p, now, io)
      ensures active == old(active) || active == old(active) - {t.id}
      ensures t.id in active ==> forall c | c in t.blocks :: fresh(t.blocks[c]) || (c in old(t.blocks) && t.blocks[c] == old(t.blocks)[c])
      ensures forall id | id in active && id != t.id :: active[id].blocks == old(active[id].blocks)
    {
      hide Sane, Shape, Transfers, Machine.BlockFor, Feed, Invariant.Inv, RingFits, Bitset.Members, SameGeometry, BlockObjects, Repr;
      ghost var s := Model();
      ghost var model := t.Model();
      KnownTransfer(t.id);
      OthersDiffer();
      RingFitsInv(s);
      SaneBlock(t.Model(), p);
      if t.BlockDone(p.blockIndex) {
        return;
      }
      BlockForKeeps(s, model, p);
      var b := BlockFor(t, p);
      if b == null {
        return;
      }
      RingFitsInv(Model());
      t.ModelAt(p.blockIndex);
      FeedBlock(t, b, p, now, io);
    }

    static lemma SaneBlock(t: Transfer, p: Wire.Packet)
      requires Sane(p) && Announces(t, p)
      ensures 0 <= p.blockIndex < t.blockCount
    {
    }

    /** Marks a transfer as heard of. */
    method Touch(t: ActiveTransfer, now: int)
      requires Valid() && t.id in active && active[t.id] == t
      modifies t`lastSeen
      ensures Valid() && t.Model() == old(t.Model()).(lastSeen := now)
      ensures Model() == WithTransfer(old(Model()), t.Model())
    {
      hide Shape, Invariant.Inv, Bitset.Members, Bitset.WordCount, BlockObjects, Repr;
      KnownTransfer(t.id);
      DistinctBlocks(t);
      TouchKeeps(Model(), t.Model(), now);
      t.Seen(now);
      OneChanged(t);
    }

    /** The footprint grew by new objects only. */
    twostate lemma Grown(new t: ActiveTransfer)
      requires forall id | id in active :: if active[id] == t then true else id in old(active) && active[id] == old(active)[id]
      requires forall id | id in active && active[id] != t :: active[id].blocks == old(active[id].blocks)
      requires fresh(t) || (t.id in old(active) && t == old(active)[t.id])
      requires t.id in active ==> forall c | c in t.blocks ::
        fresh(t.blocks[c]) || (!fresh(t) && c in old(t.blocks) && t.blocks[c] == old(t.blocks)[c])
      requires forall id | id in active && active[id] == t :: id == t.id
      ensures fresh(Repr() - old(Repr()))
    {
      forall id, c | id in active && c in active[id].blocks
        ensures fresh(active[id].blocks[c]) || active[id].blocks[c] in old(BlockObjects())
      {
      }
    }

    /** handleDatagram once its transfer is found: notes that it was heard of, then feeds its block. */
    method HandleTouched(t: ActiveTransfer, p: Wire.Packet, now: int, io: Io)
      requires Valid() && Sane(p) && t.id in active && active[t.id] == t && Announces(t.Model(), p)
      modifies this, t, t.blocks.Values
      ensures var seen := old(t.Model()).(lastSeen := now);
        && Shape() && RingFits(old(Model()).asm)
        && Model() == Rest(lib, WithTransfer(old(Model()), seen), seen, p, now, io)
      ensures active == old(active) || active == old(active) - {t.id}
      ensures t.id in active ==> forall c | c in t.blocks :: fresh(t.blocks[c]) || (c in old(t.blocks) && t.blocks[c] == old(t.blocks)[c])
      ensures forall id | id in active && id != t.id :: active[id].blocks == old(active[id].blocks)
    {
      hide Shape, Sane, Transfers, Rest, Invariant.Inv, RingFits, BlockObjects, Repr;
      RingFitsInv(Model());
      KnownTransfer(t.id);
      OthersDiffer();
      TouchKeeps(Model(), t.Model(), now);
      Touch(t, now);
      HandleKnown(t, p, now, io);
    }

    lemma InRepr()
      ensures this in Repr()
      ensures forall id | id in active :: active[id] in Repr() && forall c | c in active[id].blocks :: active[id].blocks[c] in Repr()
    {
      forall id, c | id in active && c in active[id].blocks ensures active[id].blocks[c] in BlockObjects() {
      }
    }

    lemma ValidIs()
      ensures Valid() <==> Shape() && Inv(Model())
    {
      hide Shape, Inv, Model;
    }

    lemma FieldsOf()
      ensures Model().asm.done == done && Model().disk == disk
    {
    }

    static lemma ReceiveIs(lib: Lib, s: Sys, p: Wire.Packet, now: int, io: Io)
      requires Sane(p) && RingFits(s.asm)
      ensures var f := Machine.TransferFor(lib, s, p, io);
        && (p.transferID in s.asm.done ==> Receive(lib, s, p, now, io) == s)
        && (p.transferID !in s.asm.done && f.transfer.None? ==> Receive(lib, s, p, now, io) == f.sys)
        && (p.transferID !in s.asm.done && f.transfer.Some? ==>
          && var t := f.transfer.value.(lastSeen := now);
          && RingFits(WithTransfer(f.sys, t).asm)
          && Receive(lib, s, p, now, io) == Rest(lib, WithTransfer(f.sys, t), t, p, now, io))
    {
      hide Machine.TransferFor, Rest, Sane;
      RingStays(lib, s, p, now, io);
    }

    /** handleDatagram after parsing. */
    method ReceivePacket(p: Wire.Packet, now: int, io: Io)
      requires Valid() && Sane(p)
      modifies Repr()
      ensures Shape() && RingFits(old(Model()).asm) && Model() == Receive(lib, old(Model()), p, now, io)
      ensures fresh(Repr() - old(Repr()))
    {
      hide *;
      ghost var s := Model();
      ValidIs();
      FieldsOf();
      InRepr();
      RingFitsInv(s);
      ReceiveIs(lib, s, p, now, io);
      if p.transferID in done {
        return;
      }
      TransferForKeeps(lib, s, p, io);
      var t := TransferFor(p, io);
      if t == null {
        SameRepr();
        return;
      }
      ValidIs();
      KnownTransfer(t.id);
      OthersDiffer();
      HandleTouched(t, p, now, io);
      Grown(t);
    }

    twostate lemma SameRepr()
      requires active == old(active) && forall id | id in active :: active[id].blocks == old(active[id].blocks)
      ensures fresh(Repr() - old(Repr()))
    {
    }

    /** handleDatagram: parse, then find or open the transfer, its block, and feed it the shard. */
    method HandleDatagram(b: Data, now: int, io: Io)
      requires Valid()
      modifies Repr()
      ensures Valid() && RingFits(old(Model()).asm) && Model() == Handle(lib, old(Model()), b, now, io)
      ensures fresh(Repr() - old(Repr()))
    {
      hide Shape, Sane, Receive, Invariant.Inv, RingFits, Wire.Parse;
      ghost var s := Model();
      RingFitsInv(s);
      HandleKeeps(lib, s, b, now, io);
      var parsed := Wire.Parse(lib.crc, b);
      if parsed.Rejected? {
        return;
      }
      ParsedIsSane(lib.crc, b);
      ReceivePacket(parsed.packet, now, io);
    }

    // ---- the sweep ----

    /** The state sidecar of a transfer, with its bitset words encoded as they are. */
    method PartialStateOf(t: ActiveTransfer) returns (st: PartialState)
      requires t.Shape() && DoneOk(t.Model())
      ensures st == StateOf(t.Model())
    {
      hide Bitset.Members, BlockObjects, Repr;
      var raw := EncodeBitset(t.blocksDone);
      assert Bitset.InRange(t.blocksDone, t.blockCount);
      Bitset.WordsOfMembers(t.blocksDone, t.blockCount);
      st := PartialState(t.name, t.fileSize, t.sha256, t.blockCount, t.written, t.doneCount, Some(raw));
    }

    /** persistPartial: the state first, then the data, so that only one window between them is open
        to a crash; anything that cannot be kept is removed. */
    method PersistPartial(t: ActiveTransfer, now: int, io: Io) returns (kept: bool)
      requires t.Shape() && DoneOk(t.Model())
      modifies this`disk
      ensures Persist(old(disk), t.Model(), now, io) == if kept then disk else Landing.Remove(disk, t.tmp)
    {
      hide Landing.Remove, Landing.Rename, RemovePartial, StateOf, PutSidecar, Bitset.Members, DoneOk, Bitset.WordCount, BlockObjects, Repr;
      if t.doneCount == 0 || t.doneCount >= t.blockCount {
        return false;
      }
      var better := BetterExists(disk.files, t);
      if better || !io.sync || !io.close {
        return false;
      }
      if !io.sidecar {
        disk := RemovePartial(disk, t.name);
        return false;
      }
      var st := PartialStateOf(t);
      disk := PutSidecar(disk, StatePath(t.name), st, now);
      if !io.rename {
        disk := RemovePartial(disk, t.name);
        return false;
      }
      disk := Landing.Rename(disk, t.tmp, PartPath(t.name));
      kept := true;
    }

    /** betterPartialExists. */
    function BetterExists(files: Dir, t: ActiveTransfer): (better: bool)
      reads t, t.blocks.Values
      ensures better == Machine.BetterExists(files, t.Model())
    {
      var st := LoadState(files, StatePath(t.name));
      && st.Some? && Describes(st.value, t.name, t.fileSize, t.sha256, t.blockCount)
      && st.value.doneCount >= t.doneCount
      && PartPath(t.name) in files
    }

    /** The body of expireStale's loop for one silent transfer. */
    method Abandon(t: ActiveTransfer, now: int, io: Io)
      requires Shape() && t.id in active && active[t.id] == t && DoneOk(t.Model())
      modifies this, t`blocks, t`buffered, t.blocks.Values`reserved
      ensures Shape() && active == old(active) - {t.id}
      ensures Model() == Sys(Machine.RemoveActive(old(Model()).asm, old(t.Model())), Persist(old(disk), old(t.Model()), now, io))
    {
      hide Shape, Machine.RemoveActive, Persist, DoneOk, Bitset.Members, Landing.Remove, BlockObjects, Repr;
      ghost var model := t.Model();
      RemoveActive(t);
      label removed:
      DoneFrame(model, t.Model());
      PersistSame(disk, model, t.Model(), now, io);
      var kept := PersistPartial(t, now, io);
      if !kept {
        disk := Landing.Remove(disk, t.tmp);
      }
      Untouched@removed();
    }

    /** One turn of expireStale's loop. */
    method ExpireIfStale(t: ActiveTransfer, now: int, io: Io)
      requires Valid() && t.id in active && active[t.id] == t
      modifies this, t`blocks, t`buffered, t.blocks.Values`reserved
      ensures Valid() && Model() == Expire(old(Model()), t.id, now, io)
      ensures active == old(active) || active == old(active) - {t.id}
      ensures forall other | other in active :: active[other].blocks == old(active[other].blocks)
    {
      hide Shape, Invariant.Inv, Expire, Bitset.Members, BlockObjects, Repr;
      KnownTransfer(t.id);
      OthersDiffer();
      if now - t.lastSeen > STALE_AFTER {
        ExpireOne(t, now, io);
      } else {
        NotStale(Model(), t.id, now, io);
      }
    }

    method ExpireOne(t: ActiveTransfer, now: int, io: Io)
      requires Valid() && t.id in active && active[t.id] == t && now - t.lastSeen > STALE_AFTER
      modifies this, t`blocks, t`buffered, t.blocks.Values`reserved
      ensures Valid() && Model() == Expire(old(Model()), t.id, now, io) && active == old(active) - {t.id}
    {
      hide Shape, Invariant.Inv, Machine.RemoveActive, Persist, DoneOk, Bitset.Members, BlockObjects, Repr;
      KnownTransfer(t.id);
      ExpireKeeps(Model(), t.id, now, io);
      InBudget(Model(), t.Model());
      TransferDone(t.Model());
      Abandon(t, now, io);
    }

    /** expireStale's loop over the active transfers. The order is the one the map iteration takes. */
    method ExpireTransfers(now: int, ios: Data -> Io) returns (ghost order: seq<Data>)
      requires Valid()
      modifies Repr()
      ensures Valid() && Model() == ExpireAll(old(Model()), order, now, ios) && Repr() <= old(Repr())
      ensures |order| == |old(active)| && forall id | id in old(active) :: id in order
    {
      hide Shape, Invariant.Inv, Expire, ExpireAll, Bitset.Members;
      ghost var s := Model();
      NoExpiry(s, now, ios);
      order := [];
      var rest := active.Keys;
      while rest != {}
        invariant Valid() && Model() == ExpireAll(s, order, now, ios)
        invariant rest <= active.Keys && active.Keys <= old(active).Keys
        invariant forall id | id in active :: active[id] == old(active)[id] && active[id].blocks == old(active[id].blocks)
        invariant |order| == |old(active).Keys| - |rest| && forall id | id in old(active) :: id in rest || id in order
        decreases |rest|
      {
        var id :| id in rest;
        ExpireMore(s, order, id, now, ios);
        KnownTransfer(id);
        ExpireIfStale(active[id], now, ios(id));
        rest := rest - {id};
        order := order + [id];
      }
    }

    lemma OthersDiffer()
      requires Shape()
      ensures forall id, other | id in active && other in active && id != other :: active[id] != active[other]
    {
    }

    static lemma NoExpiry(s: Sys, now: int, ios: Data -> Io)
      ensures ExpireAll(s, [], now, ios) == s
    {
    }

    static lemma NotStale(s: Sys, id: Data, now: int, io: Io)
      requires id in s.asm.active && now - s.asm.active[id].lastSeen <= STALE_AFTER
      ensures Expire(s, id, now, io) == s
    {
    }

    static lemma {:induction false} ExpireMore(s: Sys, order: seq<Data>, id: Data, now: int, ios: Data -> Io)
      ensures ExpireAll(s, order + [id], now, ios) == Expire(ExpireAll(s, order, now, ios), id, now, ios(id))
      decreases |order|
    {
      hide Expire;
      if order == [] {
        assert [id][1..] == [];
      } else {
        assert (order + [id])[1..] == order[1..] + [id];
        ExpireMore(Expire(s, order[0], now, ios(order[0])), order[1..], id, now, ios);
      }
    }

    /** reapPartials. */
    method ReapPartials(listing: seq<Data>, now: int)
      modifies this`disk
      ensures disk == Reap(old(disk), listing, now)
    {
      hide Landing.Remove, BlockObjects, Repr;
      var cutoff := now - PARTIAL_RETENTION;
      assert listing[0..] == listing;
      for i := 0 to |listing|
        invariant Reap(disk, listing[i..], now) == Reap(old(disk), listing, now)
      {
        var path := listing[i];
        assert listing[i..][0] == path && listing[i..][1..] == listing[i + 1..];
        if HasSuffix(path, STATE) && path in disk.files && disk.files[path].Sidecar? && disk.files[path].mtime < cutoff {
          disk := Landing.Remove(disk, path);
          disk := Landing.Remove(disk, PartPath(TrimSuffix(path, STATE)));
        }
      }
    }

    /** The last loop of expireStale, over the remembered IDs. */
    method ForgetDone(now: int)
      modifies this`done
      ensures done == map id | id in old(done) && now - old(done)[id] <= DONE_REMEMBER :: old(done)[id]
    {
      var rest := done.Keys;
      while rest != {}
        invariant rest <= old(done).Keys
        invariant done == map id | id in old(done) && (id in rest || now - old(done)[id] <= DONE_REMEMBER) :: old(done)[id]
        decreases |rest|
      {
        var id :| id in rest;
        if now - done[id] > DONE_REMEMBER {
          done := done - {id};
        }
        rest := rest - {id};
      }
    }

    /** The second half of expireStale. */
    method Tidy(listing: seq<Data>, now: int)
      requires Shape()
      modifies this`disk, this`done
      ensures Shape() && Model() == Sys(Forget(old(Model()).asm, now), Reap(old(Model()).disk, listing, now))
    {
      hide Shape, Transfers, Reap, BlockObjects, Repr;
      ReapPartials(listing, now);
      ForgetDone(now);
      Untouched();
    }

    /** expireStale: abandons silent transfers, keeping what they completed, reaps abandoned partials
        and forgets finished IDs. */
    method ExpireStale(listing: seq<Data>, now: int, ios: Data -> Io) returns (ghost order: seq<Data>)
      requires Valid()
      modifies Repr()
      ensures Valid() && Model() == Sweep(old(Model()), order, listing, now, ios) && Repr() <= old(Repr())
      ensures |order| == |old(active)| && forall id | id in old(active) :: id in order
    {
      hide Shape, Model, Forget, Invariant.Inv, ExpireAll, Reap;
      ghost var s := Model();
      order := ExpireTransfers(now, ios);
      SweepKeeps(s, order, listing, now, ios);
      Tidy(listing, now);
    }

    static lemma TransferDone(t: Transfer)
      requires TransferOk(t)
      ensures DoneOk(t)
    {
    }

    static lemma PersistSame(d: Disk, t: Transfer, u: Transfer, now: int, io: Io)
      requires t == u.(blocks := t.blocks, buffered := t.buffered)
      ensures Persist(d, t, now, io) == Persist(d, u, now, io)
    {
    }
  }

  /** A probed partial's progress as the code holds it: the bitset words and their population count. */
  datatype Probed = Probed(bits: seq<u64>, done: nat, written: nat, diskSize: nat)

  ghost function ResumeOf(r: Probed): Resume { Resume(Bitset.Members(r.bits), r.written, r.diskSize) }

  ghost function ResumeOpt(r: Option<Probed>): Option<Resume>
  {
    if r.Some? then Some(ResumeOf(r.value)) else None
  }
}
