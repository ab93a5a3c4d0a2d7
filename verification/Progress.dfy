/** One received shard at a time: the catcher's state is determined by the set of shards it got. */
module Progress {
  import opened Bytes
  import opened Library
  import opened Landing
  import opened MapSum
  import opened Machine
  import opened Invariant
  import opened Frames
  import opened Preserve
  import opened Delivery
  import S = Sender
  import Wire

  ghost predicate Covered(j: Job, held: set<nat>, seen: Seen)
    requires JobOk(j)
  {
    Whole(j, held, seen) == Upto(Count(j))
  }

  /** The file is in the landing directory under its name, and its transfer is not under way. */
  ghost predicate Delivered(j: Job, s: Sys)
  {
    && j.meta.name in s.disk.files && s.disk.files[j.meta.name] == Plain(j.src)
    && j.meta.transferID !in s.asm.active
  }

  /** No persisted state of the same content that an expiring transfer would have to compete with. */
  ghost predicate NoRival(j: Job, files: Dir)
    requires JobOk(j)
  {
    var st := LoadState(files, StatePath(j.meta.name));
    st.None? || !Describes(st.value, j.meta.name, j.meta.fileSize, j.meta.sha256, Count(j))
  }

  /** The transfer is under way with exactly the shards seen; rest is what other transfers buffer. */
  ghost predicate InFlight(j: Job, held: set<nat>, seen: Seen, s: Sys, rest: int)
    requires JobOk(j) && InJob(j, seen) && forall b | b in held :: b < Count(j)
  {
    && j.meta.transferID in s.asm.active
    && Holds(j, held, seen, s.asm.active[j.meta.transferID], s.disk.files)
    && s.asm.buffered == rest + s.asm.active[j.meta.transferID].buffered
    && NoRival(j, s.disk.files)
  }

  ghost predicate After(j: Job, held: set<nat>, seen: Seen, s: Sys, rest: int)
    requires JobOk(j) && InJob(j, seen) && forall b | b in held :: b < Count(j)
  {
    if Covered(j, held, seen) then Delivered(j, s) else InFlight(j, held, seen, s, rest)
  }

  /** There is room for one more open block: fewer than 32 are open, and the memory of the open
      blocks and the new one stays within the transfer's budget and the global one. */
  ghost predicate Affordable(j: Job, held: set<nat>, seen: Seen, b: nat, rest: int)
    requires JobOk(j) && b < Count(j)
  {
    var open := Partial(j, held, seen);
    && |open| < MAX_OPEN_BLOCKS
    && Sum(Reserves(j, open)) + Reserve(j, b) <= MAX_TRANSFER_BUFFERED
    && rest + Sum(Reserves(j, open)) + Reserve(j, b) <= MAX_BUFFERED
  }

  ghost predicate RoomFor(j: Job, held: set<nat>, seen: Seen, b: nat, rest: int)
    requires JobOk(j) && b < Count(j)
  {
    b in Whole(j, held, seen) || b in Partial(j, held, seen) || Affordable(j, held, seen, b, rest)
  }

  // ---- the open blocks ----

  lemma HeldReserves(j: Job, held: set<nat>, seen: Seen, t: Transfer)
    requires JobOk(j) && InJob(j, seen) && HoldsBlocks(j, held, seen, t.blocks)
    ensures Reserved(t.blocks) == Reserves(j, Partial(j, held, seen))
  {
    hide JobOk, Count, Reserve, InJob, Got;
    forall b | b in t.blocks ensures t.blocks[b].reserved == Reserve(j, b) {
      assert t.blocks[b] == Gathered(j, b, Got(seen, b));
    }
  }

  /** The open blocks after the last missing shard of block b. */
  lemma DroppedBlocks(j: Job, held: set<nat>, seen: Seen, blocks: map<nat, Block>, b: nat, si: nat)
    requires JobOk(j) && InJob(j, seen) && b < Count(j) && si < S.Total(j.pl)
    requires blocks.Keys == Partial(j, held, seen) + {b}
    requires forall x | x in blocks && x != b ::
      (forall i | i in Got(seen, x) :: i < S.Total(j.pl)) && blocks[x] == Gathered(j, x, Got(seen, x))
    requires (b, si) !in seen && b !in Whole(j, held, seen)
    requires |Got(seen, b)| + 1 >= j.pl.dataShards
    ensures InJob(j, seen + {(b, si)})
    ensures HoldsBlocks(j, held, seen + {(b, si)}, blocks - {b})
  {
    hide JobOk, Count, Got, Gathered, Partial, Whole;
    var more := seen + {(b, si)};
    NewShard(j, held, seen, b, si);
    forall x | x in blocks && x != b ensures Got(more, x) == Got(seen, x) {
      GotMore(seen, b, si, x);
    }
  }

  lemma LateBlocks(j: Job, held: set<nat>, seen: Seen, blocks: map<nat, Block>, b: nat, si: nat)
    requires JobOk(j) && InJob(j, seen) && b < Count(j) && si < S.Total(j.pl) && b in Whole(j, held, seen)
    requires HoldsBlocks(j, held, seen, blocks)
    ensures InJob(j, seen + {(b, si)})
    ensures HoldsBlocks(j, held, seen + {(b, si)}, blocks)
  {
    hide JobOk, Count, Got, Gathered, Partial, Whole;
    LateShard(j, held, seen, b, si);
  }

  // ---- feeding a shard to an open block ----

  /** The transfer carries the job's metadata, with the whole blocks done and on disk. */
  ghost predicate Carries(j: Job, whole: set<nat>, t: Transfer, files: Dir)
    requires JobOk(j) && forall b | b in whole :: b < Count(j)
  {
    && t.id == j.meta.transferID && t.name == j.meta.name && t.fileSize == |j.src|
    && t.sha256 == j.meta.sha256 && t.blockCount == Count(j)
    && t.blocksDone == whole && t.written == Sum(Lengths(j, whole))
    && Faithful(j, Content(files, t.tmp), whole)
  }

  /** Block b is open in the transfer, beside the partial blocks, with the shards got so far. */
  ghost predicate Opened(j: Job, held: set<nat>, seen: Seen, blocks: map<nat, Block>, b: nat)
    requires JobOk(j) && InJob(j, seen) && b < Count(j)
  {
    && blocks.Keys == Partial(j, held, seen) + {b}
    && forall x | x in blocks ::
         (forall i | i in Got(seen, x) :: i < S.Total(j.pl)) && blocks[x] == Gathered(j, x, Got(seen, x))
  }

  /** Shard si of block b, not seen before, meets a transfer in which b is open but not whole. */
  ghost predicate Feeding(j: Job, held: set<nat>, seen: Seen, s: Sys, t: Transfer, b: nat, si: nat, rest: int)
  {
    && JobOk(j) && InJob(j, seen) && b < Count(j) && si < S.Total(j.pl)
    && (forall x | x in held :: x < Count(j)) && (forall x | x in Whole(j, held, seen) :: x < Count(j))
    && Carries(j, Whole(j, held, seen), t, s.disk.files) && Opened(j, held, seen, t.blocks, b)
    && (b, si) !in seen && b !in Whole(j, held, seen)
    && s.asm.buffered == rest + t.buffered && NoRival(j, s.disk.files)
    && (forall i | i in Got(seen, b) + {si} :: i < S.Total(j.pl)) && InJob(j, seen + {(b, si)})
  }

  lemma StoreProgress(j: Job, held: set<nat>, seen: Seen, s: Sys, t: Transfer, b: nat, si: nat, rest: int)
    requires Feeding(j, held, seen, s, t, b, si, rest) && |Got(seen, b)| + 1 < j.pl.dataShards
    requires !Covered(j, held, seen)
    ensures var t1 := t.(blocks := t.blocks[b := Gathered(j, b, Got(seen, b) + {si})]);
      After(j, held, seen + {(b, si)}, WithTransfer(s, t1), rest)
  {
    hide JobOk, Count, Got, Gathered, Partial, Whole, Faithful, Lengths, NoRival;
    NewShard(j, held, seen, b, si);
    GotMore(seen, b, si, b);
    OpenedStored(j, held, seen, t.blocks, b, si);
  }

  lemma OpenedStored(j: Job, held: set<nat>, seen: Seen, blocks: map<nat, Block>, b: nat, si: nat)
    requires JobOk(j) && InJob(j, seen) && b < Count(j) && si < S.Total(j.pl) && Opened(j, held, seen, blocks, b)
    requires (b, si) !in seen && b !in Whole(j, held, seen) && |Got(seen, b)| + 1 < j.pl.dataShards
    ensures InJob(j, seen + {(b, si)}) && forall i | i in Got(seen, b) + {si} :: i < S.Total(j.pl)
    ensures HoldsBlocks(j, held, seen + {(b, si)}, blocks[b := Gathered(j, b, Got(seen, b) + {si})])
  {
    hide JobOk, Count, Got, Gathered, Partial, Whole;
    var more := seen + {(b, si)};
    GotInJob(j, seen, b);
    NewShard(j, held, seen, b, si);
    GotMore(seen, b, si, b);
    forall x | x in blocks && x != b ensures Got(more, x) == Got(seen, x) {
      GotMore(seen, b, si, x);
    }
  }

  /** The transfer after block b was written to disk. */
  lemma WrittenCarries(j: Job, held: set<nat>, seen: Seen, t: Transfer, files: Dir, after: Dir, b: nat, g: Block)
    requires JobOk(j) && b < Count(j) && (forall x | x in Whole(j, held, seen) :: x < Count(j))
    requires Carries(j, Whole(j, held, seen), t, files) && b !in Whole(j, held, seen) && g.blockLen == Len(j, b)
    requires t.tmp in after && after[t.tmp] == Plain(Overlay(Content(files, t.tmp), Off(j, b), BlockOf(j, b)))
    ensures forall x | x in Whole(j, held, seen) + {b} :: x < Count(j)
    ensures Carries(j, Whole(j, held, seen) + {b}, Completed(t, b, g), after)
  {
    hide JobOk, Count, Whole, Faithful, Lengths, Overlay, Len, Off, BlockOf;
    LengthsInsert(j, Whole(j, held, seen), b);
    FaithfulWrite(j, Content(files, t.tmp), Whole(j, held, seen), b);
  }

  /** Writing the block with its last missing shard, and the transfer then. */
  lemma WriteProgress(j: Job, held: set<nat>, seen: Seen, s: Sys, t: Transfer, b: nat, si: nat, io: Io, got: set<nat>)
    requires JobOk(j) && InJob(j, seen) && b < Count(j) && si < S.Total(j.pl)
    requires forall x | x in Whole(j, held, seen) :: x < Count(j)
    requires TempOk(t, s.disk.files) && GoodIo(io)
    requires Carries(j, Whole(j, held, seen), t, s.disk.files) && Opened(j, held, seen, t.blocks, b)
    requires (b, si) !in seen && b !in Whole(j, held, seen) && |Got(seen, b)| + 1 >= j.pl.dataShards
    requires NoRival(j, s.disk.files) && got == Got(seen, b) + {si} && forall i | i in got :: i < S.Total(j.pl)
    ensures DataShards(j.lib, Gathered(j, b, got)).Some? && InJob(j, seen + {(b, si)})
    ensures forall x | x in Whole(j, held, seen + {(b, si)}) :: x < Count(j)
    ensures var more, g := seen + {(b, si)}, Gathered(j, b, got);
      var (d, ok) := WriteShards(s.disk, t.tmp, g.offset, DataShards(j.lib, g).value, g.blockLen, io.shardWrites);
      var t1 := Completed(t, b, g);
      && ok && Carries(j, Whole(j, held, more), t1, d.files) && HoldsBlocks(j, held, more, t1.blocks)
      && NoRival(j, d.files) && TempOk(t1, d.files)
  {
    hide JobOk, Count, Got, Partial, Whole, Faithful, Lengths, NoRival, Len, Off, BlockOf, Overlay, DataShards, WriteShards,
      Carries, Code, Reserve, IsTemp, HoldsBlocks, Size, InJob;
    NewShard(j, held, seen, b, si);
    GotMore(seen, b, si, b);
    var g := Gathered(j, b, got);
    BlockWritten(j, b, got, s.disk, t.tmp, io.shardWrites);
    var data := DataShards(j.lib, g).value;
    var (d, ok) := WriteShards(s.disk, t.tmp, g.offset, data, g.blockLen, io.shardWrites);
    DroppedBlocks(j, held, seen, t.blocks, b, si);
    WrittenCarries(j, held, seen, t, s.disk.files, d.files, b, g);
    CompletedFrame(t, b, g);
    WriteShardsTouches(s.disk, t.tmp, g.offset, data, g.blockLen, io.shardWrites);
    RivalFrame(j, t, s.disk.files, d.files);
    WriteShardsBounded(s.disk, t.tmp, g.offset, data, g.blockLen, io.shardWrites);
    BlockSlice(j, b);
    CarriedSize(j, held, seen, t, s.disk.files);
  }

  lemma CarriedSize(j: Job, held: set<nat>, seen: Seen, t: Transfer, files: Dir)
    requires JobOk(j) && (forall x | x in Whole(j, held, seen) :: x < Count(j))
    requires Carries(j, Whole(j, held, seen), t, files)
    ensures t.fileSize == |j.src| && t.blockCount == Count(j) && t.blocksDone == Whole(j, held, seen)
  {
    hide JobOk, Count, Whole, Faithful, Lengths;
  }

  lemma CompleteProgress(j: Job, held: set<nat>, seen: Seen, s: Sys, t: Transfer, b: nat, si: nat, now: int, io: Io, rest: int)
    requires Feeding(j, held, seen, s, t, b, si, rest)
    requires Inv(s) && Registered(s, t) && GoodIo(io) && |Got(seen, b)| + 1 >= j.pl.dataShards
    ensures RingFits(s.asm)
    ensures After(j, held, seen + {(b, si)},
                  Complete(j.lib, s, t, b, Gathered(j, b, Got(seen, b) + {si}), now, io), rest)
  {
    hide JobOk, Count, Got, Partial, Whole, NoRival, DataShards, WriteShards, Gathered, InJob, Inv, After,
      Finish, Carries, TempOk, HoldsBlocks, GoodIo, Opened, RingFits, Completed, TransferOk, Rebuffer, DoneOk;
    RingFitsInv(s);
    var more, got := seen + {(b, si)}, Got(seen, b) + {si};
    var g := Gathered(j, b, got);
    OpenedAt(j, held, seen, t.blocks, b);
    TempOfInv(s, t);
    WriteProgress(j, held, seen, s, t, b, si, io, got);
    var (d, ok) := WriteShards(s.disk, t.tmp, g.offset, DataShards(j.lib, g).value, g.blockLen, io.shardWrites);
    var t1 := Completed(t, b, g);
    BlockFacts(s, t, b);
    GatheredFields(j, b, got);
    GatheredFields(j, b, Got(seen, b));
    CompletedOk(t, b, g);
    CompletedFrame(t, b, g);
    AfterWriting(j, held, more, s.(disk := d), t, t1, now, io, rest);
    assert Complete(j.lib, s, t, b, g, now, io) ==
      if t1.doneCount == t1.blockCount then Finish(j.lib, Rebuffer(s.(disk := d), t, t1), t1, now, io)
      else Rebuffer(s.(disk := d), t, t1);
  }

  /** What follows the write of a block: landing after the last one, or going on. */
  lemma AfterWriting(j: Job, held: set<nat>, seen: Seen, s: Sys, t: Transfer, t1: Transfer, now: int, io: Io, rest: int)
    requires JobOk(j) && InJob(j, seen) && RingFits(s.asm) && GoodIo(io)
    requires (forall x | x in held :: x < Count(j)) && (forall x | x in Whole(j, held, seen) :: x < Count(j))
    requires Carries(j, Whole(j, held, seen), t1, s.disk.files) && HoldsBlocks(j, held, seen, t1.blocks)
    requires NoRival(j, s.disk.files) && TempOk(t1, s.disk.files) && DoneOk(t1)
    requires s.asm.buffered == rest + t.buffered
    ensures var s2 := Rebuffer(s, t, t1);
      && RingFits(s2.asm)
      && After(j, held, seen, if t1.doneCount == t1.blockCount then Finish(j.lib, s2, t1, now, io) else s2, rest)
  {
    hide JobOk, Count, Got, Partial, Whole, Faithful, Lengths, NoRival, InJob, Finish, TempOk, HoldsBlocks, GoodIo, Delivered,
      DoneOk, Holds, Carries;
    CarriedSize(j, held, seen, t1, s.disk.files);
    CountWhole(j, Whole(j, held, seen), t1);
    CarriedId(j, held, seen, t1, s.disk.files);
    var s2 := Rebuffer(s, t, t1);
    if t1.doneCount == t1.blockCount {
      FinishDelivers(j, Whole(j, held, seen), s2, t1, now, io);
    } else {
      CarriesHolds(j, held, seen, t1, s.disk.files);
    }
  }

  lemma CarriedId(j: Job, held: set<nat>, seen: Seen, t: Transfer, files: Dir)
    requires JobOk(j) && (forall x | x in Whole(j, held, seen) :: x < Count(j))
    requires Carries(j, Whole(j, held, seen), t, files)
    ensures t.id == j.meta.transferID
  {
    hide JobOk, Count, Whole, Faithful, Lengths;
  }

  lemma OpenedAt(j: Job, held: set<nat>, seen: Seen, blocks: map<nat, Block>, b: nat)
    requires JobOk(j) && InJob(j, seen) && b < Count(j) && Opened(j, held, seen, blocks, b)
    ensures b in blocks && (forall i | i in Got(seen, b) :: i < S.Total(j.pl))
    ensures blocks[b] == Gathered(j, b, Got(seen, b))
  {
    hide JobOk, Count, Got, Gathered, Partial;
  }

  lemma GatheredFields(j: Job, b: nat, got: set<nat>)
    requires JobOk(j) && b < Count(j) && forall i | i in got :: i < S.Total(j.pl)
    ensures var g := Gathered(j, b, got);
      && g.blockLen == Len(j, b) <= MAX_BLOCK_BYTES && g.offset == Off(j, b) && g.reserved == Reserve(j, b)
      && g.have == |got| && g.dataShards == j.pl.dataShards && g.shards.Keys == got
  {
    hide JobOk, Count, Code, Off, Reserve, Size;
  }

  lemma TempOfInv(s: Sys, t: Transfer)
    requires Inv(s) && Registered(s, t)
    ensures TempOk(t, s.disk.files)
  {
    hide AsmOk, TempOk;
  }

  lemma RivalFrame(j: Job, t: Transfer, f: Dir, g: Dir)
    requires JobOk(j) && NoRival(j, f) && AgreeOutside(f, g, {t.tmp}) && IsTemp(t.tmp)
    ensures NoRival(j, g)
  {
    hide JobOk, IsTemp, StatePath, Count;
    NamesApart(t.tmp, j.meta.name, j.meta.name);
  }

  lemma CarriesHolds(j: Job, held: set<nat>, seen: Seen, t: Transfer, files: Dir)
    requires JobOk(j) && InJob(j, seen) && (forall x | x in held :: x < Count(j))
    requires forall x | x in Whole(j, held, seen) :: x < Count(j)
    requires Carries(j, Whole(j, held, seen), t, files) && HoldsBlocks(j, held, seen, t.blocks)
    ensures Holds(j, held, seen, t, files)
  {
    hide JobOk, Count, Whole, Faithful, Lengths, HoldsBlocks;
  }

  /** All blocks are done exactly when as many are done as there are. */
  lemma CountWhole(j: Job, whole: set<nat>, t: Transfer)
    requires JobOk(j) && (forall b | b in whole :: b < Count(j)) && t.blocksDone == whole && DoneOk(t) && t.blockCount == Count(j)
    ensures t.doneCount == t.blockCount <==> whole == Upto(Count(j))
  {
    hide JobOk, Count;
    UptoSize(Count(j));
    assert whole <= Upto(Count(j));
    if whole != Upto(Count(j)) {
      var b :| b in Upto(Count(j)) && b !in whole;
      assert whole + {b} <= Upto(Count(j));
      SubsetAtMost(whole + {b}, Upto(Count(j)));
    }
  }

  lemma {:induction false} UptoSize(n: nat)
    ensures |Upto(n)| == n
  {
    if n > 0 {
      UptoSize(n - 1);
    }
  }

  /** Finishing a transfer that holds every block delivers the file. */
  lemma FinishDelivers(j: Job, whole: set<nat>, s: Sys, t: Transfer, now: int, io: Io)
    requires JobOk(j) && (forall x | x in whole :: x < Count(j)) && whole == Upto(Count(j)) && GoodIo(io)
    requires Carries(j, whole, t, s.disk.files) && TempOk(t, s.disk.files) && RingFits(s.asm)
    ensures Delivered(j, Finish(j.lib, s, t, now, io))
  {
    hide JobOk, Count, Faithful, Lengths, Land, IsTemp, Sum, Reserved;
    Lands(j, s.disk, t, io);
    RememberActive(RemoveActive(s.asm, t), t.id, now);
  }

  /** A new shard of an open block. */
  lemma FeedProgress(j: Job, held: set<nat>, seen: Seen, s: Sys, t: Transfer, b: nat, si: nat, now: int, io: Io, rest: int)
    requires Feeding(j, held, seen, s, t, b, si, rest) && !Covered(j, held, seen)
    requires Inv(s) && Registered(s, t) && GoodIo(io)
    ensures RingFits(s.asm) && b in t.blocks && Packet(j, b, si).blockIndex == b
    ensures After(j, held, seen + {(b, si)}, Feed(j.lib, s, t, Packet(j, b, si), now, io), rest)
  {
    hide JobOk, Count, Got, Gathered, Partial, Whole, NoRival, Inv, After, Carries, Opened, GoodIo, RingFits, AddShard,
      InJob, Complete, Covered, Packet, Sane, Registered;
    RingFitsInv(s);
    var p := Packet(j, b, si);
    PacketFields(j, b, si);
    OpenedAt(j, held, seen, t.blocks, b);
    GatheredFields(j, b, Got(seen, b));
    NotGot(seen, b, si);
    GatheredMore(j, b, Got(seen, b), si);
    GatheredFields(j, b, Got(seen, b) + {si});
    if |Got(seen, b)| + 1 < j.pl.dataShards {
      StoreProgress(j, held, seen, s, t, b, si, rest);
    } else {
      CompleteProgress(j, held, seen, s, t, b, si, now, io, rest);
    }
  }

  lemma NotGot(seen: Seen, b: nat, si: nat)
    requires (b, si) !in seen
    ensures si !in Got(seen, b) && |Got(seen, b) + {si}| == |Got(seen, b)| + 1
  {
  }

  /** A block not seen before is opened with room to spare, and nothing is evicted for it. */
  lemma OpenProgress(j: Job, held: set<nat>, seen: Seen, s: Sys, t: Transfer, b: nat, si: nat, rest: int)
    requires JobOk(j) && InJob(j, seen) && b < Count(j) && si < S.Total(j.pl) && (forall x | x in held :: x < Count(j))
    requires Holds(j, held, seen, t, s.disk.files) && TransferOk(t) && s.asm.buffered == rest + t.buffered
    requires b !in Whole(j, held, seen) && b !in Partial(j, held, seen) && Affordable(j, held, seen, b, rest)
    ensures var p := Packet(j, b, si);
      && p.blockIndex == b && MakeRoom(t, s.asm.buffered, p) == Room(t, true)
      && Machine.OpenBlock(t, p) == t.(blocks := t.blocks[b := Gathered(j, b, {})], buffered := t.buffered + Reserve(j, b))
  {
    hide JobOk, Count, Got, Gathered, Whole, Faithful, Lengths, Reserved, Reserves, Sum, Packet, Sane, NewBlock, Footprint,
      SizeOk, DoneOk, BlocksOk, Partial;
    PacketFields(j, b, si);
    GatheredNew(j, b, si);
    HeldReserves(j, held, seen, t);
    assert |t.blocks| == |t.blocks.Keys|;
  }

  /** Blocks with a new one opened. */
  lemma OpenedFresh(j: Job, held: set<nat>, seen: Seen, blocks: map<nat, Block>, b: nat)
    requires JobOk(j) && InJob(j, seen) && b < Count(j) && HoldsBlocks(j, held, seen, blocks)
    requires b !in Partial(j, held, seen) && Got(seen, b) == {}
    ensures Opened(j, held, seen, blocks[b := Gathered(j, b, {})], b)
  {
    hide JobOk, Count, Got, Gathered, Partial;
  }

  // ---- receiving one shard ----

  /** What an arriving shard meets: the transfer holding exactly the shards seen. */
  ghost predicate Meeting(j: Job, held: set<nat>, seen: Seen, s: Sys, t: Transfer, b: nat, si: nat, rest: int)
  {
    && JobOk(j) && InJob(j, seen) && b < Count(j) && si < S.Total(j.pl)
    && (forall x | x in held :: x < Count(j)) && (forall x | x in Whole(j, held, seen) :: x < Count(j))
    && Holds(j, held, seen, t, s.disk.files) && s.asm.buffered == rest + t.buffered && NoRival(j, s.disk.files)
    && InJob(j, seen + {(b, si)}) && RoomFor(j, held, seen, b, rest) && !Covered(j, held, seen)
  }

  lemma MeetsFeeding(j: Job, held: set<nat>, seen: Seen, s: Sys, t: Transfer, b: nat, si: nat, rest: int)
    requires Meeting(j, held, seen, s, t, b, si, rest) && (b, si) !in seen
    requires b in Partial(j, held, seen) && b !in Whole(j, held, seen)
    ensures Feeding(j, held, seen, s, t, b, si, rest)
  {
    hide JobOk, Count, Got, Gathered, Whole, Faithful, Lengths, NoRival, InJob, Partial, RoomFor;
    GotInJob(j, seen, b);
    assert Partial(j, held, seen) + {b} == Partial(j, held, seen);
  }

  lemma MeetsOpened(j: Job, held: set<nat>, seen: Seen, s: Sys, t: Transfer, b: nat, si: nat, rest: int)
    requires Meeting(j, held, seen, s, t, b, si, rest)
    requires b !in Partial(j, held, seen) && b !in Whole(j, held, seen)
    ensures (b, si) !in seen && Got(seen, b) == {}
    ensures var t1 := t.(blocks := t.blocks[b := Gathered(j, b, {})], buffered := t.buffered + Reserve(j, b));
      Feeding(j, held, seen, Rebuffer(s, t, t1), t1, b, si, rest)
  {
    hide JobOk, Count, Gathered, Faithful, Lengths, NoRival, InJob, Partial, Whole, Opened, HoldsBlocks, RoomFor, Got;
    NothingGot(j, held, seen, b, si);
    OpenedFresh(j, held, seen, t.blocks, b);
  }

  lemma NothingGot(j: Job, held: set<nat>, seen: Seen, b: nat, si: nat)
    requires JobOk(j) && b < Count(j) && b !in Partial(j, held, seen) && b !in Whole(j, held, seen)
    ensures Got(seen, b) == {} && (b, si) !in seen
  {
    hide JobOk;
    assert |Got(seen, b)| == 0;
    assert (b, si) in seen ==> si in Got(seen, b);
  }

  lemma MeetsLate(j: Job, held: set<nat>, seen: Seen, s: Sys, t: Transfer, b: nat, si: nat, rest: int)
    requires Meeting(j, held, seen, s, t, b, si, rest) && b in Whole(j, held, seen)
    ensures After(j, held, seen + {(b, si)}, WithTransfer(s, t), rest)
  {
    hide JobOk, Count, Got, Gathered, Whole, Faithful, Lengths, NoRival, InJob, Partial, HoldsBlocks, RoomFor;
    LateShard(j, held, seen, b, si);
    LateBlocks(j, held, seen, t.blocks, b, si);
  }

  lemma MeetsAgain(j: Job, held: set<nat>, seen: Seen, s: Sys, t: Transfer, b: nat, si: nat, rest: int)
    requires Meeting(j, held, seen, s, t, b, si, rest) && (b, si) in seen && b !in Whole(j, held, seen)
    ensures b in Partial(j, held, seen) && b in t.blocks && si in t.blocks[b].shards
    ensures SameGeometry(t.blocks[b], Packet(j, b, si))
    ensures After(j, held, seen + {(b, si)}, WithTransfer(s, t), rest)
  {
    hide JobOk, Count, Faithful, Lengths, NoRival, InJob, Packet, Sane, Code, Reserve, Size, Len, Off, RoomFor;
    assert seen + {(b, si)} == seen;
    assert si in Got(seen, b);
    assert |Got(seen, b)| > 0;
    PacketFields(j, b, si);
    assert t.blocks[b] == Gathered(j, b, Got(seen, b));
  }

  /** The state after an arriving shard of a transfer that is under way depends only on the set of
      shards seen: a repeated or late one changes nothing, a new one joins its block, and the last one
      missing lands the file. */
  lemma ShardProgress(j: Job, held: set<nat>, seen: Seen, s: Sys, t: Transfer, b: nat, si: nat, now: int, io: Io, rest: int)
    requires Meeting(j, held, seen, s, t, b, si, rest) && Inv(s) && Registered(s, t) && GoodIo(io)
    ensures RingFits(s.asm)
    ensures After(j, held, seen + {(b, si)}, Rest(j.lib, s, t, Packet(j, b, si), now, io), rest)
  {
    hide JobOk, Count, Got, Gathered, Whole, Partial, NoRival, InJob, After, Feeding, GoodIo, Inv, Meeting, Packet,
      Sane, Feed, MakeRoom, Rebuffer, Machine.OpenBlock, WithTransfer, RingFits, SameGeometry;
    RingFitsInv(s);
    MeetingFacts(j, held, seen, s, t, b, si, rest);
    var p := Packet(j, b, si);
    PacketFields(j, b, si);
    if b in Whole(j, held, seen) {
      MeetsLate(j, held, seen, s, t, b, si, rest);
      SameTransfer(s, t);
    } else if (b, si) in seen {
      MeetsAgain(j, held, seen, s, t, b, si, rest);
      SameTransfer(s, t);
      FedAgain(j.lib, s, t, p, now, io);
    } else if b in Partial(j, held, seen) {
      MeetsFeeding(j, held, seen, s, t, b, si, rest);
      FeedProgress(j, held, seen, s, t, b, si, now, io, rest);
      FedGeometry(j, held, seen, s, t, b, si, rest);
    } else {
      MeetsOpened(j, held, seen, s, t, b, si, rest);
      InBudget(s, t);
      OpenProgress(j, held, seen, s, t, b, si, rest);
      BlockForKeeps(s, t, p);
      var t1 := Machine.OpenBlock(t, p);
      FeedProgress(j, held, seen, Rebuffer(s, t, t1), t1, b, si, now, io, rest);
    }
  }

  lemma FedAgain(lib: Lib, s: Sys, t: Transfer, p: Wire.Packet, now: int, io: Io)
    requires Sane(p) && RingFits(s.asm) && p.blockIndex in t.blocks && p.shardIndex in t.blocks[p.blockIndex].shards
    ensures Feed(lib, s, t, p, now, io) == s
  {
  }

  lemma FedGeometry(j: Job, held: set<nat>, seen: Seen, s: Sys, t: Transfer, b: nat, si: nat, rest: int)
    requires Feeding(j, held, seen, s, t, b, si, rest)
    ensures b in t.blocks && SameGeometry(t.blocks[b], Packet(j, b, si))
  {
    hide JobOk, Count, Got, Gathered, Whole, Partial, NoRival, InJob, Packet, Sane, Carries;
    OpenedAt(j, held, seen, t.blocks, b);
    NotGot(seen, b, si);
    GatheredMore(j, b, Got(seen, b), si);
  }

  lemma SameTransfer(s: Sys, t: Transfer)
    requires Registered(s, t)
    ensures WithTransfer(s, t) == s
  {
    assert s.asm.active[t.id := t] == s.asm.active;
  }

  lemma MeetingFacts(j: Job, held: set<nat>, seen: Seen, s: Sys, t: Transfer, b: nat, si: nat, rest: int)
    requires Meeting(j, held, seen, s, t, b, si, rest)
    ensures JobOk(j) && InJob(j, seen) && b < Count(j) && si < S.Total(j.pl) && InJob(j, seen + {(b, si)})
    ensures (forall x | x in held :: x < Count(j)) && (forall x | x in Whole(j, held, seen) :: x < Count(j))
    ensures t.blocksDone == Whole(j, held, seen) && t.blocks.Keys == Partial(j, held, seen)
    ensures Holds(j, held, seen, t, s.disk.files) && s.asm.buffered == rest + t.buffered
    ensures RoomFor(j, held, seen, b, rest) && !Covered(j, held, seen)
    ensures Announces(t, Packet(j, b, si))
  {
    hide JobOk, Count, Got, Gathered, Whole, Partial, NoRival, InJob, Packet, Sane, Faithful, Lengths, RoomFor;
    PacketFields(j, b, si);
  }

  // ---- a datagram of a transfer under way, or of one that is over ----

  lemma TouchHolds(j: Job, held: set<nat>, seen: Seen, t: Transfer, files: Dir, now: int)
    requires JobOk(j) && InJob(j, seen) && (forall b | b in held :: b < Count(j)) && Holds(j, held, seen, t, files)
    ensures Holds(j, held, seen, t.(lastSeen := now), files)
  {
    hide JobOk, Count, Whole, Faithful, Lengths, HoldsBlocks, InJob;
  }

  /** Handling a datagram of the job while its transfer is under way. */
  lemma FlightStep(j: Job, held: set<nat>, seen: Seen, s: Sys, b: nat, si: nat, now: int, io: Io, rest: int)
    requires JobOk(j) && InJob(j, seen) && b < Count(j) && si < S.Total(j.pl) && (forall x | x in held :: x < Count(j))
    requires InFlight(j, held, seen, s, rest) && !Covered(j, held, seen) && RoomFor(j, held, seen, b, rest)
    requires Inv(s) && GoodIo(io)
    ensures RingFits(s.asm) && InJob(j, seen + {(b, si)})
    ensures After(j, held, seen + {(b, si)}, Handle(j.lib, s, Sent(j, b, si), now, io), rest)
  {
    hide JobOk, Count, Whole, Partial, NoRival, InJob, After, GoodIo, Inv, Packet, Sane, Rest, RingFits, Wire.Parse,
      Sent, Covered, RoomFor, Holds;
    RingFitsInv(s);
    GotBounded(j, seen, b, si);
    WholeBounded(j, held, seen);
    var p := Packet(j, b, si);
    SentParse(j, b, si);
    var t := s.asm.active[j.meta.transferID];
    var t1 := t.(lastSeen := now);
    NotRemembered(s, j.meta.transferID);
    FlightFacts(j, held, seen, s, b, si, rest);
    TouchKeeps(s, t, now);
    TouchHolds(j, held, seen, t, s.disk.files, now);
    ShardProgress(j, held, seen, WithTransfer(s, t1), t1, b, si, now, io, rest);
  }

  lemma FlightFacts(j: Job, held: set<nat>, seen: Seen, s: Sys, b: nat, si: nat, rest: int)
    requires JobOk(j) && InJob(j, seen) && b < Count(j) && si < S.Total(j.pl) && (forall x | x in held :: x < Count(j))
    requires InFlight(j, held, seen, s, rest)
    ensures var t := s.asm.active[j.meta.transferID];
      Registered(s, t) && Announces(t, Packet(j, b, si)) && t.id == j.meta.transferID
  {
    hide JobOk, Count, Whole, Faithful, Lengths, HoldsBlocks, InJob, Packet, Sane, NoRival;
    PacketFields(j, b, si);
  }

  lemma NotRemembered(s: Sys, id: Data)
    requires Inv(s) && id in s.asm.active
    ensures id !in s.asm.done && s.asm.active[id].id == id
  {
    hide TransferOk;
  }

  /** A datagram of a remembered transfer is ignored. */
  lemma DeliveredStep(j: Job, s: Sys, b: nat, si: nat, now: int, io: Io)
    requires JobOk(j) && b < Count(j) && si < S.Total(j.pl) && RingFits(s.asm) && j.meta.transferID in s.asm.done
    ensures Handle(j.lib, s, Sent(j, b, si), now, io) == s
  {
    hide JobOk, Count, Sane, RingFits, Wire.Parse, Sent, Packet;
    SentParse(j, b, si);
    PacketFields(j, b, si);
  }
}
