/** Every step of the catcher keeps the invariant. */
module Preserve {
  import opened Bytes
  import opened Library
  import opened Landing
  import opened MapSum
  import opened Machine
  import opened Invariant
  import opened Frames
  import Bitset
  import Wire

  // ---- the files of the other transfers ----

  lemma TempsFrame(active: map<Data, Transfer>, f: Dir, g: Dir, names: set<Data>)
    requires TempsOk(active, f) && AgreeOutside(f, g, names)
    requires forall id | id in active :: active[id].tmp !in names
    ensures TempsOk(active, g)
  {
    hide IsTemp;
    forall id | id in active ensures TempOk(active[id], g) {
      assert TempOk(active[id], f);
    }
  }

  lemma PrivateApart(active: map<Data, Transfer>, f: Dir, name: Data, tmp: Data)
    requires TempsOk(active, f) && tmp !in f
    ensures forall id | id in active :: active[id].tmp !in Private(name, tmp)
  {
    hide IsTemp, PartPath, StatePath;
    forall id | id in active ensures active[id].tmp !in Private(name, tmp) {
      assert TempOk(active[id], f);
      NamesApart(active[id].tmp, name, name);
    }
  }

  // ---- opening a transfer ----

  lemma AdoptedContent(d: Disk, name: Data, io: Io)
    requires Adopt(d, name, io).1.Some?
    ensures PartPath(name) in d.files
    ensures var (e, path) := Adopt(d, name, io);
      IsTemp(path.value) && path.value !in d.files && path.value in e.files &&
      e.files[path.value] == d.files[PartPath(name)]
  {
    hide IsTemp, PartPath, StatePath;
    TempIsTemp(name, io.adoptTemp.value);
    var path := TempPath(name, io.adoptTemp.value);
    NamesApart(path, name, name);
  }

  lemma OpenFileKeeps(active: map<Data, Transfer>, d: Disk, name: Data, resuming: bool, io: Io)
    requires TempsOk(active, d.files)
    ensures var (e, file) := OpenFile(d, name, resuming, io);
      && TempsOk(active, e.files)
      && (file.Some? ==>
        && IsTemp(file.value.path) && file.value.path in e.files
        && (forall id | id in active :: active[id].tmp != file.value.path)
        && (file.value.adopted ==> resuming && PartPath(name) in d.files
                                   && e.files[file.value.path] == d.files[PartPath(name)])
        && (!file.value.adopted ==> e.files[file.value.path] == Plain([])))
  {
    hide IsTemp, PartPath, StatePath, Adopt;
    var d1 := d;
    if resuming {
      var tmp := AdoptTouches(d, name, io);
      d1 := Adopt(d, name, io).0;
      PrivateApart(active, d.files, name, tmp);
      TempsFrame(active, d.files, d1.files, Private(name, tmp));
      if Adopt(d, name, io).1.Some? {
        AdoptedContent(d, name, io);
      }
    }
    if CreateTemp(d1, name, io.freshTemp).Some? {
      FreshTempKeeps(active, d1, name, io.freshTemp);
    }
  }

  lemma FreshTempKeeps(active: map<Data, Transfer>, d: Disk, name: Data, rnd: Option<Data>)
    requires TempsOk(active, d.files) && CreateTemp(d, name, rnd).Some?
    ensures var (e, path) := CreateTemp(d, name, rnd).value;
      && IsTemp(path) && path !in d.files && e.files == d.files[path := Plain([])]
      && TempsOk(active, e.files)
      && forall id | id in active :: active[id].tmp != path
  {
    hide IsTemp;
    var (e, path) := CreateTemp(d, name, rnd).value;
    TempIsTemp(name, rnd.value);
    forall id | id in active ensures active[id].tmp != path {
      assert TempOk(active[id], d.files);
    }
    TempsFrame(active, d.files, e.files, {path});
  }

  /** A probed partial is in the directory, not empty and not complete. */
  lemma ProbeBounds(files: Dir, p: Wire.Packet)
    requires Sane(p) && Probe(files, p).Some?
    ensures var r := Probe(files, p).value;
      && (forall b | b in r.done :: b < p.blockCount)
      && 1 <= |r.done| < p.blockCount && 1 <= r.written <= p.fileSize
      && PartPath(p.name) in files && files[PartPath(p.name)].Plain?
      && r.diskSize == |files[PartPath(p.name)].bytes| <= p.fileSize
  {
    hide Bitset.Decode, Bitset.Members;
    var raw := LoadState(files, StatePath(p.name)).value.blocksDone;
    Bitset.DecodeAccepts(raw.value, p.blockCount);
  }

  lemma OpenedOk(files: Dir, p: Wire.Packet, file: TempFile, resume: Option<Resume>)
    requires Sane(p) && SizeLimit(p.name).Some? && p.fileSize <= SizeLimit(p.name).value
    requires resume == Probe(files, p)
    ensures TransferOk(Opened(p, file, resume)) && Opened(p, file, resume).blocks == map[]
  {
    hide SizeLimit, Probe;
    if resume.Some? {
      ProbeBounds(files, p);
    }
    NoBlocks();
  }

  lemma InsertCounters(asm: Asm, t: Transfer)
    requires CountersOk(asm) && t.id !in asm.active && Sum(Reserved(t.blocks)) == 0
    requires |asm.active| < MAX_TRANSFERS && asm.activeSize + t.fileSize <= QUOTA
    ensures CountersOk(asm.(active := asm.active[t.id := t], activeSize := asm.activeSize + t.fileSize))
  {
    hide Sum, Reserved;
    var active := asm.active;
    BuffersUpdate(active, t);
    SumInsert(Buffers(active), t.id, Sum(Reserved(t.blocks)));
    SumInsert(Sizes(active), t.id, t.fileSize);
    assert active[t.id := t].Keys == active.Keys + {t.id};
    assert |active[t.id := t].Keys| == |active.Keys| + 1;
  }

  lemma InsertKeeps(asm: Asm, t: Transfer)
    requires AsmOk(asm) && t.id !in asm.active && t.id !in asm.done && TransferOk(t) && t.blocks == map[]
    requires |asm.active| < MAX_TRANSFERS && asm.activeSize + t.fileSize <= QUOTA
    ensures AsmOk(asm.(active := asm.active[t.id := t], activeSize := asm.activeSize + t.fileSize))
  {
    hide TransferOk, RingOk, CountersOk;
    NoBlocks();
    InsertCounters(asm, t);
    RingFrame(asm, asm.(active := asm.active[t.id := t], activeSize := asm.activeSize + t.fileSize));
  }

  lemma NoBlocks()
    ensures Sum(Reserved(map[])) == 0
  {
    assert Reserved(map[]) == map[];
  }

  /** Opening a transfer keeps the invariant and yields that transfer. */
  lemma OpenKeeps(lib: Lib, s: Sys, p: Wire.Packet, resume: Option<Resume>, io: Io)
    requires Inv(s) && Sane(p) && p.transferID !in s.asm.active && p.transferID !in s.asm.done
    requires resume == Probe(s.disk.files, p) && Admits(lib, s.asm, p, resume, io)
    ensures Inv(Open(s, p, resume, io).sys)
    ensures var f := Open(s, p, resume, io);
      f.transfer.Some? ==> Registered(f.sys, f.transfer.value) && Announces(f.transfer.value, p)
  {
    hide IsTemp, SizeLimit, OpenFile, Probe, TransferOk, ActiveOk, CountersOk, RingOk, TempsOk, AsmOk;
    OpenFileKeeps(s.asm.active, s.disk, p.name, resume.Some?, io);
    var (d, file) := OpenFile(s.disk, p.name, resume.Some?, io);
    if file.Some? {
      var t := Opened(p, file.value, resume);
      OpenedOk(s.disk.files, p, file.value, resume);
      InsertKeeps(s.asm, t);
      if file.value.adopted {
        ProbeBounds(s.disk.files, p);
      }
      InsertTemps(s.asm.active, d.files, t);
    }
  }

  lemma InsertTemps(active: map<Data, Transfer>, files: Dir, t: Transfer)
    requires TempsOk(active, files) && TempOk(t, files) && forall id | id in active :: active[id].tmp != t.tmp
    ensures TempsOk(active[t.id := t], files)
  {
    hide TempOk;
  }

  /** t is an active transfer of s. */
  ghost predicate Registered(s: Sys, t: Transfer) { t.id in s.asm.active && s.asm.active[t.id] == t }

  /** The packet carries the transfer's metadata. */
  ghost predicate Announces(t: Transfer, p: Wire.Packet)
    requires Sane(p)
  {
    t.id == p.transferID && t.name == p.name && t.fileSize == p.fileSize && t.blockCount == p.blockCount
    && t.sha256 == p.sha256
  }

  lemma TransferForKeeps(lib: Lib, s: Sys, p: Wire.Packet, io: Io)
    requires Inv(s) && Sane(p) && p.transferID !in s.asm.done
    ensures Inv(TransferFor(lib, s, p, io).sys)
    ensures var f := TransferFor(lib, s, p, io);
      f.transfer.Some? ==> Registered(f.sys, f.transfer.value) && Announces(f.transfer.value, p)
  {
    hide Open, Probe, Admits, TransferOk, TempsOk, CountersOk, RingOk;
    if p.transferID !in s.asm.active {
      var resume := Probe(s.disk.files, p);
      if Admits(lib, s.asm, p, resume, io) {
        OpenKeeps(lib, s, p, resume, io);
      }
    }
  }

  // ---- blocks ----

  /** How the reserved bytes change with the open blocks. */
  lemma ReservedSums(blocks: map<nat, Block>, k: nat, b: Block)
    ensures k !in blocks ==> Sum(Reserved(blocks[k := b])) == Sum(Reserved(blocks)) + b.reserved
    ensures k in blocks ==>
      Sum(Reserved(blocks[k := b])) == Sum(Reserved(blocks)) - blocks[k].reserved + b.reserved
    ensures k in blocks ==> Sum(Reserved(blocks - {k})) == Sum(Reserved(blocks)) - blocks[k].reserved
  {
    var r := Reserved(blocks);
    assert Reserved(blocks[k := b]) == r[k := b.reserved];
    if k in blocks {
      assert Reserved(blocks - {k}) == r - {k};
      SumUpdate(r, k, b.reserved);
      SumRemove(r, k);
    } else {
      SumInsert(r, k, b.reserved);
    }
  }

  /** A transfer without one of its open blocks. */
  lemma DropKeeps(t: Transfer, k: nat)
    requires BlocksOk(t) && BudgetOk(t) && k in t.blocks
    ensures var t1 := t.(blocks := t.blocks - {k}, buffered := t.buffered - t.blocks[k].reserved);
      BlocksOk(t1) && BudgetOk(t1) && |t1.blocks| == |t.blocks| - 1
  {
    hide BlockOk, Sum, Reserved;
    ReservedSums(t.blocks, k, t.blocks[k]);
    var t1 := t.(blocks := t.blocks - {k}, buffered := t.buffered - t.blocks[k].reserved);
    forall b | b in t1.blocks ensures BlockOk(t1.blocks[b], t1.fileSize) {
      assert BlockOk(t.blocks[b], t.fileSize);
    }
    ReservedNat(t.blocks[k], t.fileSize);
    assert t1.blocks.Keys == t.blocks.Keys - {k};
    assert |t1.blocks.Keys| == |t.blocks.Keys| - 1;
  }

  lemma ReservedNat(b: Block, fileSize: nat)
    requires BlockOk(b, fileSize)
    ensures 2 <= b.reserved <= MAX_BLOCK_BYTES
  {
    Wire.ShardsFit(b.dataShards + b.parityShards, b.shardSize);
    MulLe(2, b.dataShards + b.parityShards, b.shardSize);
  }

  /** Making room keeps a transfer consistent and never raises the number of bytes it holds. */
  lemma MakeRoomKeeps(t: Transfer, buffered: int, p: Wire.Packet)
    requires TransferOk(t) && Sane(p)
    ensures var r := MakeRoom(t, buffered, p);
      && TransferOk(r.transfer) && r.transfer == t.(blocks := r.transfer.blocks, buffered := r.transfer.buffered)
      && r.transfer.buffered <= t.buffered
      && (forall b | b in r.transfer.blocks :: b in t.blocks && r.transfer.blocks[b] == t.blocks[b])
      && (r.ok ==>
        && |r.transfer.blocks| < MAX_OPEN_BLOCKS
        && r.transfer.buffered + Footprint(p) <= MAX_TRANSFER_BUFFERED
        && buffered - t.buffered + r.transfer.buffered + Footprint(p) <= MAX_BUFFERED)
  {
    hide BlockOk, Sum, Reserved, Footprint, SizeOk;
    if |t.blocks| >= MAX_OPEN_BLOCKS {
      var e := Evict(t, p.blockIndex);
      if e.Some? {
        DropKeeps(t, Least(t.blocks.Keys));
        DoneFrame(t, e.value);
      }
    }
  }

  lemma DoneFrame(t: Transfer, t1: Transfer)
    requires t1.blocksDone == t.blocksDone && t1.doneCount == t.doneCount && t1.written == t.written
    requires t1.fileSize == t.fileSize && t1.blockCount == t.blockCount && t1.name == t.name
    ensures DoneOk(t) ==> DoneOk(t1)
    ensures SizeOk(t) ==> SizeOk(t1)
  {
  }

  lemma NewBlockOk(p: Wire.Packet)
    requires Sane(p)
    ensures BlockOk(NewBlock(p), p.fileSize)
    ensures NewBlock(p).reserved == Footprint(p) <= MAX_BLOCK_BYTES
  {
    Wire.ShardsFit(p.dataShards + p.parityShards, p.shardSize);
  }

  lemma OpenBlockKeeps(t: Transfer, p: Wire.Packet)
    requires TransferOk(t) && Sane(p) && Announces(t, p)
    requires p.blockIndex !in t.blocks && p.blockIndex !in t.blocksDone
    requires |t.blocks| < MAX_OPEN_BLOCKS && t.buffered + Footprint(p) <= MAX_TRANSFER_BUFFERED
    ensures TransferOk(OpenBlock(t, p))
  {
    hide BlockOk, Sum, Reserved, NewBlock, Footprint, SizeOk, DoneOk;
    var t1 := OpenBlock(t, p);
    NewBlockOk(p);
    ReservedSums(t.blocks, p.blockIndex, NewBlock(p));
    DoneFrame(t, t1);
    forall b | b in t1.blocks ensures b < t1.blockCount && b !in t1.blocksDone && BlockOk(t1.blocks[b], t1.fileSize) {
      if b != p.blockIndex {
        assert BlockOk(t.blocks[b], t.fileSize);
      }
    }
    assert t1.blocks.Keys == t.blocks.Keys + {p.blockIndex};
    assert |t1.blocks.Keys| == |t.blocks.Keys| + 1;
  }

  /** Finding, opening or refusing a packet's block, evicting another one or not, changes nothing of its
      transfer but which blocks are open and their memory: no done block is given up. */
  lemma BlockForFrame(s: Sys, t: Transfer, p: Wire.Packet)
    requires Registered(s, t) && Sane(p)
    ensures var g := BlockFor(s, t, p).sys;
      && t.id in g.asm.active && g.asm.active[t.id].(blocks := t.blocks, buffered := t.buffered) == t
      && g.asm.active - {t.id} == s.asm.active - {t.id} && g.disk == s.disk
      && g.asm.(active := s.asm.active, buffered := s.asm.buffered) == s.asm
  {
    hide Footprint, NewBlock, Least, Sane, SameGeometry;
  }

  /** Finding or opening a packet's block keeps the invariant, and every done block of the transfer,
      whether or not it finds room. */
  lemma BlockForKeeps(s: Sys, t: Transfer, p: Wire.Packet)
    requires Inv(s) && Registered(s, t) && Sane(p) && Announces(t, p) && p.blockIndex !in t.blocksDone
    ensures Inv(BlockFor(s, t, p).sys)
    ensures var f := BlockFor(s, t, p);
      f.transfer.Some? ==>
        && Registered(f.sys, f.transfer.value) && Announces(f.transfer.value, p)
        && p.blockIndex in f.transfer.value.blocks && SameGeometry(f.transfer.value.blocks[p.blockIndex], p)
    ensures var g := BlockFor(s, t, p).sys;
      && t.id in g.asm.active && g.asm.active[t.id].blocksDone == t.blocksDone && g.asm.active[t.id].written == t.written
      && g.disk == s.disk
  {
    BlockForFrame(s, t, p);
    hide TransferOk, CountersOk, RingOk, TempsOk, MakeRoom, Footprint;
    if p.blockIndex !in t.blocks {
      InBudget(s, t);
      MakeRoomKeeps(t, s.asm.buffered, p);
      var room := MakeRoom(t, s.asm.buffered, p);
      if room.ok {
        OpenBlockKeeps(room.transfer, p);
        ReplaceKeeps(s, t, OpenBlock(room.transfer, p));
      } else {
        ReplaceKeeps(s, t, room.transfer);
      }
    }
  }

  lemma InBudget(s: Sys, t: Transfer)
    requires Inv(s) && Registered(s, t)
    ensures TransferOk(t) && s.asm.buffered <= MAX_BUFFERED
  {
    hide TransferOk;
  }

  // ---- shards and completion ----

  lemma AddShardOk(b: Block, p: Wire.Packet, fileSize: nat)
    requires BlockOk(b, fileSize) && Sane(p) && SameGeometry(b, p) && p.shardIndex !in b.shards
    ensures var b1 := AddShard(b, p);
      && b1.have == |b1.shards| <= b1.dataShards
      && (b1.have < b1.dataShards ==> BlockOk(b1, fileSize))
  {
    assert AddShard(b, p).shards.Keys == b.shards.Keys + {p.shardIndex};
    assert |AddShard(b, p).shards.Keys| == |b.shards.Keys| + 1;
  }

  lemma StoreShardKeeps(t: Transfer, p: Wire.Packet)
    requires TransferOk(t) && Sane(p) && p.blockIndex in t.blocks && SameGeometry(t.blocks[p.blockIndex], p)
    requires p.shardIndex !in t.blocks[p.blockIndex].shards
    requires AddShard(t.blocks[p.blockIndex], p).have < AddShard(t.blocks[p.blockIndex], p).dataShards
    ensures TransferOk(t.(blocks := t.blocks[p.blockIndex := AddShard(t.blocks[p.blockIndex], p)]))
  {
    hide BlockOk, Sum, Reserved, SizeOk, DoneOk;
    var b1 := AddShard(t.blocks[p.blockIndex], p);
    var t1 := t.(blocks := t.blocks[p.blockIndex := b1]);
    AddShardOk(t.blocks[p.blockIndex], p, t.fileSize);
    ReservedSums(t.blocks, p.blockIndex, b1);
    DoneFrame(t, t1);
    forall b | b in t1.blocks ensures b < t1.blockCount && b !in t1.blocksDone && BlockOk(t1.blocks[b], t1.fileSize) {
      if b != p.blockIndex {
        assert BlockOk(t.blocks[b], t.fileSize);
      }
    }
    assert t1.blocks.Keys == t.blocks.Keys;
    assert |t1.blocks.Keys| == |t.blocks.Keys|;
  }

  /** The writes of a block stay inside the file and leave the temporary file in place. */
  lemma {:induction false} WriteShardsBounded(d: Disk, path: Data, off: nat, shards: seq<Data>, remaining: nat, writes: nat)
    requires path in d.files && d.files[path].Plain?
    ensures var e := WriteShards(d, path, off, shards, remaining, writes).0;
      path in e.files && e.files[path].Plain?
      && |e.files[path].bytes| <= Max(|d.files[path].bytes|, off + remaining)
    decreases |shards|
  {
    if shards == [] || remaining == 0 || writes == 0 {
    } else {
      var n := Min(|shards[0]|, remaining);
      var d1 := WriteAt(d, path, off, shards[0][..n]);
      WriteShardsBounded(d1, path, off + n, shards[1..], remaining - n, writes - 1);
    }
  }

  lemma WriteKeeps(s: Sys, t: Transfer, off: nat, shards: seq<Data>, remaining: nat, writes: nat)
    requires TempsOk(s.asm.active, s.disk.files) && Registered(s, t) && off + remaining <= t.fileSize
    ensures TempsOk(s.asm.active, WriteShards(s.disk, t.tmp, off, shards, remaining, writes).0.files)
  {
    hide WriteShards, IsTemp;
    var e := WriteShards(s.disk, t.tmp, off, shards, remaining, writes).0;
    WriteShardsTouches(s.disk, t.tmp, off, shards, remaining, writes);
    assert TempOk(t, s.disk.files);
    WriteShardsBounded(s.disk, t.tmp, off, shards, remaining, writes);
    forall id | id in s.asm.active ensures TempOk(s.asm.active[id], e.files) {
      assert TempOk(s.asm.active[id], s.disk.files);
    }
  }

  /** A completed block's transfer, still short of its last block. */
  lemma CompletedOk(t: Transfer, bi: nat, b: Block)
    requires TransferOk(t) && bi in t.blocks && bi < t.blockCount && bi !in t.blocksDone
    requires b.reserved == t.blocks[bi].reserved && b.blockLen <= MAX_BLOCK_BYTES
    ensures var t1 := Completed(t, bi, b);
      && SizeOk(t1) && DoneOk(t1) && BlocksOk(t1) && BudgetOk(t1) && t1.doneCount <= t1.blockCount
      && t1.buffered <= t.buffered
  {
    hide BlockOk, Sum, Reserved;
    assert BlockOk(t.blocks[bi], t.fileSize);
    ReservedNat(t.blocks[bi], t.fileSize);
    ReservedSums(t.blocks, bi, b);
    var t1 := Completed(t, bi, b);
    forall k | k in t1.blocks ensures BlockOk(t1.blocks[k], t1.fileSize) {
      assert BlockOk(t.blocks[k], t.fileSize);
    }
    assert t1.blocks.Keys == t.blocks.Keys - {bi};
    assert |t1.blocks.Keys| == |t.blocks.Keys| - 1;
  }

  /** Giving a transfer up, or finishing it, removes it and remembers its ID. */
  lemma EndKeeps(asm: Asm, t: Transfer, files: Dir, after: Dir, names: set<Data>, now: int)
    requires AsmOk(asm) && TempsOk(asm.active, files) && t.id in asm.active
    requires Sum(Reserved(asm.active[t.id].blocks)) == Sum(Reserved(t.blocks)) && asm.active[t.id].fileSize == t.fileSize
    requires AgreeOutside(files, after, names)
    requires forall id | id in asm.active && id != t.id :: asm.active[id].tmp !in names
    ensures AsmOk(RememberDone(RemoveActive(asm, t), t.id, now))
    ensures TempsOk(RemoveActive(asm, t).active, after)
  {
    hide Sum, Reserved, TransferOk, CountersOk, RingOk, RememberDone, IsTemp, AgreeOutside, TempOk;
    RemoveKeeps(asm, t);
    RememberKeeps(RemoveActive(asm, t), t.id, now);
    TempsFrame(RemoveActive(asm, t).active, files, after, names);
  }

  lemma FailKeeps(s: Sys, t: Transfer, now: int)
    requires Inv(s) && Registered(s, t)
    ensures RingFits(s.asm) && Inv(Fail(s, t, now))
  {
    hide Sum, Reserved, TransferOk, CountersOk, IsTemp, TempOk, Remove, RememberDone;
    RemoveTouches(s.disk, t.tmp);
    EndKeeps(s.asm, t, s.disk.files, Remove(s.disk, t.tmp).files, {t.tmp}, now);
    RememberActive(RemoveActive(s.asm, t), t.id, now);
  }

  lemma RememberActive(asm: Asm, id: Data, now: int)
    requires RingFits(asm)
    ensures RememberDone(asm, id, now).active == asm.active
  {
  }

  ghost function LandNames(t: Transfer): set<Data> { Private(t.name, t.tmp) + {t.name} }

  /** Landing involves the file's private names and its final name only. */
  lemma LandTouches(lib: Lib, d: Disk, t: Transfer, io: Io)
    ensures Touches(d, Land(lib, d, t, io), LandNames(t))
  {
    hide Remove, PartPath, StatePath, Rename, RemovePartial, Truncate;
    var names := LandNames(t);
    RemoveThen(d, d, t.tmp, names);
    var d1 := Truncate(d, t.tmp, t.fileSize);
    TruncateTouches(d, t.tmp, t.fileSize);
    TouchesMore(d, d1, {t.tmp}, names);
    RemoveThen(d, d1, t.tmp, names);
    var d2 := Rename(d1, t.tmp, t.name);
    RenameTouches(d1, t.tmp, t.name);
    TouchesMore(d1, d2, {t.tmp, t.name}, names);
    TouchesTrans(d, d1, d2, names);
    RemovePartialTouches(d2, t.name, names);
    TouchesTrans(d, d2, RemovePartial(d2, t.name), names);
  }

  lemma TruncateTouches(d: Disk, path: Data, n: nat)
    ensures Touches(d, Truncate(d, path, n), {path})
  {
  }

  lemma OthersApart(active: map<Data, Transfer>, files: Dir, t: Transfer)
    requires TempsOk(active, files) && t.id in active && active[t.id].tmp == t.tmp && SizeLimit(t.name).Some?
    ensures forall id | id in active && id != t.id :: active[id].tmp !in LandNames(t)
  {
    hide IsTemp, PartPath, StatePath, SizeLimit;
    forall id | id in active && id != t.id ensures active[id].tmp !in LandNames(t) {
      assert TempOk(active[id], files);
      NamesApart(active[id].tmp, t.name, t.name);
    }
  }

  /** Finishing a transfer whose last block was just written. */
  lemma FinishKeeps(lib: Lib, s: Sys, t: Transfer, t1: Transfer, now: int, io: Io)
    requires Inv(s) && Registered(s, t)
    requires t1.id == t.id && t1.name == t.name && t1.fileSize == t.fileSize && t1.tmp == t.tmp && BudgetOk(t1)
    ensures RingFits(s.asm) && Inv(Finish(lib, Rebuffer(s, t, t1), t1, now, io))
  {
    hide Sum, Reserved, TransferOk, CountersOk, IsTemp, TempOk, Land, RememberDone;
    InBudget(s, t);
    SizeKnown(t);
    var r := Rebuffer(s, t, t1);
    assert RemoveActive(r.asm, t1) == RemoveActive(s.asm, t) by {
      assert TransferOk(t);
      BufferedIsSum(t);
      assert s.asm.active[t.id := t1] - {t.id} == s.asm.active - {t.id};
    }
    LandTouches(lib, s.disk, t1, io);
    OthersApart(s.asm.active, s.disk.files, t1);
    EndKeeps(s.asm, t, s.disk.files, Land(lib, s.disk, t1, io).files, LandNames(t1), now);
    RememberActive(RemoveActive(s.asm, t), t.id, now);
  }

  lemma BufferedIsSum(t: Transfer)
    requires TransferOk(t)
    ensures t.buffered == Sum(Reserved(t.blocks))
  {
  }

  lemma SizeKnown(t: Transfer)
    requires TransferOk(t)
    ensures SizeLimit(t.name).Some?
  {
  }

  /** Completing a block whose shards suffice keeps the invariant, whatever the library and the file
      system answer. */
  lemma CompleteKeeps(lib: Lib, s: Sys, t: Transfer, bi: nat, b: Block, now: int, io: Io)
    requires Inv(s) && Registered(s, t) && bi in t.blocks
    requires b.reserved == t.blocks[bi].reserved && b.blockLen == t.blocks[bi].blockLen && b.offset == t.blocks[bi].offset
    ensures RingFits(s.asm) && Inv(Complete(lib, s, t, bi, b, now, io))
  {
    hide TransferOk, CountersOk, RingOk, TempsOk, IsTemp, WriteShards, DataShards, Finish, Fail, Completed, AsmOk;
    RingFitsInv(s);
    var data := DataShards(lib, b);
    if data.None? {
      FailKeeps(s, t, now);
    } else {
      BlockFacts(s, t, bi);
      WriteKeeps(s, t, b.offset, data.value, b.blockLen, io.shardWrites);
      var (d, ok) := WriteShards(s.disk, t.tmp, b.offset, data.value, b.blockLen, io.shardWrites);
      var s1 := s.(disk := d);
      if !ok {
        FailKeeps(s1, t, now);
      } else {
        var t1 := Completed(t, bi, b);
        CompletedOk(t, bi, b);
        CompletedFrame(t, bi, b);
        if t1.doneCount == t1.blockCount {
          FinishKeeps(lib, s1, t, t1, now, io);
        } else {
          StillOk(t1);
          InBudget(s1, t);
          ReplaceKeeps(s1, t, t1);
        }
      }
    }
  }

  lemma StillOk(t: Transfer)
    requires SizeOk(t) && DoneOk(t) && BlocksOk(t) && BudgetOk(t) && t.doneCount < t.blockCount
    ensures TransferOk(t)
  {
  }

  lemma CompletedFrame(t: Transfer, bi: nat, b: Block)
    ensures var t1 := Completed(t, bi, b);
      t1.id == t.id && t1.name == t.name && t1.fileSize == t.fileSize && t1.tmp == t.tmp
      && t1.blockCount == t.blockCount && t1.sha256 == t.sha256
  {
  }

  lemma RingFitsInv(s: Sys)
    requires Inv(s)
    ensures RingFits(s.asm)
  {
  }

  lemma BlockFacts(s: Sys, t: Transfer, bi: nat)
    requires Inv(s) && Registered(s, t) && bi in t.blocks
    ensures TransferOk(t) && TempsOk(s.asm.active, s.disk.files)
    ensures bi < t.blockCount && bi !in t.blocksDone && BlockOk(t.blocks[bi], t.fileSize)
    ensures t.blocks[bi].offset + t.blocks[bi].blockLen <= t.fileSize && t.blocks[bi].blockLen <= MAX_BLOCK_BYTES
  {
    hide IsTemp, Sum;
  }

  lemma FeedKeeps(lib: Lib, s: Sys, t: Transfer, p: Wire.Packet, now: int, io: Io)
    requires Inv(s) && Registered(s, t) && Sane(p) && p.blockIndex in t.blocks
    requires SameGeometry(t.blocks[p.blockIndex], p)
    ensures RingFits(s.asm) && Inv(Feed(lib, s, t, p, now, io))
  {
    hide TransferOk, CountersOk, RingOk, TempsOk, Complete, AsmOk, BlockOk;
    RingFitsInv(s);
    BlockFacts(s, t, p.blockIndex);
    var b := t.blocks[p.blockIndex];
    if p.shardIndex !in b.shards {
      var b1 := AddShard(b, p);
      if b1.have < b1.dataShards {
        StoreShardKeeps(t, p);
        InBudget(s, t);
        var t1 := t.(blocks := t.blocks[p.blockIndex := b1]);
        ReplaceKeeps(s, t, t1);
        assert WithTransfer(s, t1) == Rebuffer(s, t, t1);
      } else {
        CompleteKeeps(lib, s, t, p.blockIndex, b1, now, io);
      }
    }
  }

  /** Touching a transfer. */
  lemma TouchKeeps(s: Sys, t: Transfer, now: int)
    requires Inv(s) && Registered(s, t)
    ensures Inv(WithTransfer(s, t.(lastSeen := now)))
  {
    hide TransferOk, CountersOk, RingOk, TempsOk, AsmOk;
    InBudget(s, t);
    var t1 := t.(lastSeen := now);
    LastSeenFrame(t, now);
    ReplaceKeeps(s, t, t1);
    assert WithTransfer(s, t1) == Rebuffer(s, t, t1);
  }

  lemma LastSeenFrame(t: Transfer, now: int)
    requires TransferOk(t)
    ensures TransferOk(t.(lastSeen := now))
  {
    hide BlockOk;
  }

  lemma ReceiveKeeps(lib: Lib, s: Sys, p: Wire.Packet, now: int, io: Io)
    requires Inv(s) && Sane(p)
    ensures RingFits(s.asm) && Inv(Receive(lib, s, p, now, io))
  {
    hide TransferFor, BlockFor, Feed, TransferOk, CountersOk, RingOk, TempsOk, AsmOk, Sane;
    RingFitsInv(s);
    RingStays(lib, s, p, now, io);
    if p.transferID !in s.asm.done {
      TransferForKeeps(lib, s, p, io);
      var f := TransferFor(lib, s, p, io);
      if f.transfer.Some? {
        var t := f.transfer.value.(lastSeen := now);
        TouchKeeps(f.sys, f.transfer.value, now);
        var s1 := WithTransfer(f.sys, t);
        if p.blockIndex !in t.blocksDone {
          BlockForKeeps(s1, t, p);
          var g := BlockFor(s1, t, p);
          if g.transfer.Some? {
            FeedKeeps(lib, g.sys, g.transfer.value, p, now, io);
          }
        }
      }
    }
  }

  lemma RingStays(lib: Lib, s: Sys, p: Wire.Packet, now: int, io: Io)
    requires Sane(p) && RingFits(s.asm)
    ensures var f := TransferFor(lib, s, p, io);
      && RingFits(f.sys.asm)
      && f.sys.asm.done == s.asm.done && f.sys.asm.doneOrder == s.asm.doneOrder && f.sys.asm.doneNext == s.asm.doneNext
    ensures var f := TransferFor(lib, s, p, io);
      f.transfer.Some? ==>
        RingFits(BlockFor(WithTransfer(f.sys, f.transfer.value.(lastSeen := now)),
                          f.transfer.value.(lastSeen := now), p).sys.asm)
  {
    hide Probe, Admits, OpenFile, MakeRoom, OpenBlock;
  }

  /** Whatever bytes arrive, whenever they do and whatever the file system answers, handling them
      keeps every budget, counter and transfer consistent. */
  lemma HandleKeeps(lib: Lib, s: Sys, b: Data, now: int, io: Io)
    requires Inv(s)
    ensures RingFits(s.asm) && Inv(Handle(lib, s, b, now, io))
  {
    hide Receive, AsmOk, TempsOk, Wire.Parse, Sane;
    RingFitsInv(s);
    if Wire.Parse(lib.crc, b).Accepted? {
      ParsedIsSane(lib.crc, b);
      ReceiveKeeps(lib, s, Wire.Parse(lib.crc, b).packet, now, io);
    }
  }

  // ---- the sweep ----

  lemma ExpireKeeps(s: Sys, id: Data, now: int, io: Io)
    requires Inv(s)
    ensures Inv(Expire(s, id, now, io))
  {
    hide TransferOk, CountersOk, RingOk, Persist, IsTemp, TempOk, Sum, Reserved;
    if id in s.asm.active {
      var t := s.asm.active[id];
      RemoveKeeps(s.asm, t);
      PersistTouches(s.disk, t, now, io);
      SizeKnown(t);
      OthersApart(s.asm.active, s.disk.files, t);
      TempsFrame(RemoveActive(s.asm, t).active, s.disk.files, Persist(s.disk, t, now, io).files, Private(t.name, t.tmp));
    }
  }

  lemma {:induction false} ExpireAllKeeps(s: Sys, order: seq<Data>, now: int, io: Data -> Io)
    requires Inv(s)
    ensures Inv(ExpireAll(s, order, now, io))
    decreases |order|
  {
    hide Expire, Inv;
    if order != [] {
      ExpireKeeps(s, order[0], now, io(order[0]));
      ExpireAllKeeps(Expire(s, order[0], now, io(order[0])), order[1..], now, io);
    }
  }

  /** The names a reaping may remove: partials and their states. */
  ghost function Reapable(files: Dir): set<Data>
  {
    set p | p in files && !IsTemp(p) && !IsFinal(p)
  }

  lemma {:induction false} ReapTouches(d: Disk, listing: seq<Data>, now: int)
    ensures Touches(d, Reap(d, listing, now), Reapable(d.files))
    ensures forall p | p in Reap(d, listing, now).files :: p in d.files && Reap(d, listing, now).files[p] == d.files[p]
    decreases |listing|
  {
    hide IsTemp, PartPath, StatePath, SizeLimit, HasSuffix, Touches, PART, STATE;
    var names := Reapable(d.files);
    NoTouch(d, names);
    if listing != [] {
      var path := listing[0];
      var d1 := ReapOne(d, path, now);
      ReapOneTouches(d, path, now);
      ReapTouches(d1, listing[1..], now);
      TouchesMore(d1, Reap(d1, listing[1..], now), Reapable(d1.files), names);
      TouchesTrans(d, d1, Reap(d1, listing[1..], now), names);
    }
  }

  lemma NoTouch(d: Disk, names: set<Data>)
    ensures Touches(d, d, names)
  {
  }

  lemma ReapOneTouches(d: Disk, path: Data, now: int)
    ensures Touches(d, ReapOne(d, path, now), Reapable(d.files))
    ensures forall p | p in ReapOne(d, path, now).files :: p in d.files && ReapOne(d, path, now).files[p] == d.files[p]
  {
    hide IsTemp, PartPath, StatePath, SizeLimit, PART, STATE;
    var names := Reapable(d.files);
    NoTouch(d, names);
    if HasSuffix(path, STATE) && path in d.files {
      var name := TrimSuffix(path, STATE);
      StatePathOf(path);
      var tmp := FreeTemp(d);
      NamesApart(tmp, name, name);
      NotTemp(name);
      RemoveThen(d, d, path, names);
      var d1 := Remove(d, path);
      RemoveTouches(d1, PartPath(name));
      if PartPath(name) in d.files {
        TouchesMore(d1, Remove(d1, PartPath(name)), {PartPath(name)}, names);
        TouchesTrans(d, d1, Remove(d1, PartPath(name)), names);
      }
    }
  }

  lemma StatePathOf(path: Data)
    requires HasSuffix(path, STATE)
    ensures StatePath(TrimSuffix(path, STATE)) == path
  {
    hide STATE;
  }

  lemma NotTemp(name: Data)
    ensures !IsTemp(PartPath(name)) && !IsTemp(StatePath(name))
  {
    hide PartPath, StatePath, IsTemp;
    if IsTemp(PartPath(name)) {
      NamesApart(PartPath(name), name, name);
    }
    if IsTemp(StatePath(name)) {
      NamesApart(StatePath(name), name, name);
    }
  }

  lemma ForgetKeeps(asm: Asm, now: int)
    requires AsmOk(asm)
    ensures AsmOk(Forget(asm, now))
  {
    hide ActiveOk, Sum, Buffers, Sizes;
  }

  /** Expiry, reaping and forgetting keep the invariant, in whatever order the transfers are visited. */
  lemma SweepKeeps(s: Sys, order: seq<Data>, listing: seq<Data>, now: int, io: Data -> Io)
    requires Inv(s)
    ensures Inv(Sweep(s, order, listing, now, io))
  {
    hide ExpireAll, Reap, Forget, IsTemp, TempOk, AsmOk;
    var s1 := ExpireAll(s, order, now, io);
    ExpireAllKeeps(s, order, now, io);
    ForgetKeeps(s1.asm, now);
    ForgetActive(s1.asm, now);
    ReapTouches(s1.disk, listing, now);
    forall id | id in s1.asm.active ensures s1.asm.active[id].tmp !in Reapable(s1.disk.files) {
      TempNotReapable(s1.asm.active[id], s1.disk.files);
    }
    TempsFrame(s1.asm.active, s1.disk.files, Reap(s1.disk, listing, now).files, Reapable(s1.disk.files));
  }

  lemma TempNotReapable(t: Transfer, files: Dir)
    requires TempOk(t, files)
    ensures t.tmp !in Reapable(files)
  {
    hide IsTemp;
  }

  lemma ForgetActive(asm: Asm, now: int)
    ensures Forget(asm, now).active == asm.active
  {
  }
}
