/** The catcher as a state machine over values: what each datagram, sweep and crash does to the
    reassembly state and the landing directory. Assembler.dfy shows that the in-place code does this. */
module Machine {
  import opened Bytes
  import opened Library
  import opened Landing
  import opened MapSum
  import Bitset
  import Wire

  const MAX_TRANSFERS := 16
  const MAX_OPEN_BLOCKS := 32
  const MAX_BUFFERED := 268_435_456 // 256 << 20
  const MAX_TRANSFER_BUFFERED := 67_108_864 // 64 << 20
  const MAX_REMEMBERED := 4096
  const QUOTA := 137_438_953_472 // 128 << 30

  // Durations in nanoseconds.
  const STALE_AFTER := 90_000_000_000
  const DONE_REMEMBER := 600_000_000_000
  const PARTIAL_RETENTION := 86_400_000_000_000

  // ---- state ----

  /** An open block. Shards holds the shards received so far by index. */
  datatype Block = Block(
    dataShards: nat, parityShards: nat, shardSize: nat, blockLen: nat, offset: nat,
    shards: map<nat, Data>, have: nat, reserved: nat)

  datatype Transfer = Transfer(
    id: Data, name: Data, fileSize: nat, sha256: Data, blockCount: nat, tmp: Data,
    blocks: map<nat, Block>, blocksDone: set<nat>, doneCount: nat, written: nat, lastSeen: int, buffered: int)

  datatype Record = Record(id: Data, at: int)

  datatype Asm = Asm(
    active: map<Data, Transfer>, done: map<Data, int>, doneOrder: seq<Record>, doneNext: nat,
    buffered: int, activeSize: int)

  datatype Sys = Sys(asm: Asm, disk: Disk)

  const IDLE := Asm(map[], map[], [], 0, 0, 0)

  /** How the operating system answers during one call: the measured quota usage, the temporary
      names it picks, how many shard writes succeed, and which other calls fail. */
  datatype Io = Io(
    stored: Option<nat>, mkdir: bool,
    adoptTemp: Option<Data>, adoptClose: bool, adoptRename: bool, adoptOpen: bool,
    freshTemp: Option<Data>, shardWrites: nat,
    truncate: bool, read: bool, sync: bool, close: bool, rename: bool, syncDir: bool, sidecar: bool)

  /** What validation and the header's unsigned fields guarantee about a parsed packet. */
  predicate Sane(p: Wire.Packet)
  {
    && Wire.NameOk(p.name)
    && 1 <= p.dataShards && 1 <= p.parityShards && p.dataShards + p.parityShards <= 256
    && 1 <= p.shardSize <= Wire.MAX_SHARD_SIZE && |p.shard| == p.shardSize
    && 0 <= p.shardIndex < p.dataShards + p.parityShards
    && 0 <= p.blockIndex < p.blockCount <= Wire.MAX_BLOCK_COUNT && p.blockCount <= p.fileSize
    && 1 <= p.blockLen <= p.dataShards * p.shardSize <= 15_360_000
    && 0 <= p.blockOffset && p.blockOffset + p.blockLen <= p.fileSize
  }

  lemma ParsedIsSane(crc: Data -> u32, b: Data)
    requires Wire.Parse(crc, b).Accepted?
    ensures Sane(Wire.Parse(crc, b).packet)
  {
    hide Wire.Parse, Wire.Validate;
    Wire.ParsedIsValid(crc, b);
    Wire.ValidBounds(Wire.Parse(crc, b).packet);
  }

  // ---- resuming ----

  /** Progress found beside the landing directory for the file a packet announces. */
  datatype Resume = Resume(done: set<nat>, written: nat, diskSize: nat)

  predicate Describes(st: PartialState, name: Data, fileSize: int, sha256: Data, blockCount: int)
  {
    st.name == name && st.fileSize == fileSize && st.blockCount == blockCount && st.sha256 == sha256
  }

  /** decodeBlockBitset, as a set. */
  ghost function DecodedSet(raw: Option<Data>, blockCount: nat): Option<set<nat>>
  {
    if raw.Some? && Bitset.Decode(raw.value, blockCount).Some? then
      Some(Bitset.Members(Bitset.Decode(raw.value, blockCount).value))
    else None
  }

  /** probePartial. */
  ghost function Probe(files: Dir, p: Wire.Packet): Option<Resume>
    requires Sane(p)
  {
    var st := LoadState(files, StatePath(p.name));
    if st.None? || !Describes(st.value, p.name, p.fileSize, p.sha256, p.blockCount) then None
    else
      var done := DecodedSet(st.value.blocksDone, p.blockCount);
      var part := PartPath(p.name);
      if done.None? || |done.value| != st.value.doneCount || done.value == {} || |done.value| >= p.blockCount then None
      else if st.value.written < 1 || st.value.written > p.fileSize then None
      else if part !in files || !files[part].Plain? || |files[part].bytes| > p.fileSize then None
      else Some(Resume(done.value, st.value.written, |files[part].bytes|))
  }

  /** admitNewTransfer. */
  function Admits(lib: Lib, asm: Asm, p: Wire.Packet, resume: Option<Resume>, io: Io): bool
    requires Sane(p)
  {
    && lib.validName(p.name)
    && SizeLimit(p.name).Some? && p.fileSize <= SizeLimit(p.name).value
    && |asm.active| < MAX_TRANSFERS
    && io.stored.Some?
    && var stored := if resume.Some? then Max(io.stored.value - resume.value.diskSize, 0) else io.stored.value;
      && stored <= QUOTA - asm.activeSize
      && p.fileSize <= QUOTA - stored - asm.activeSize
  }

  /** adoptPartialFile: the partial's bytes under a fresh temporary name, its state consumed. */
  function Adopt(d: Disk, name: Data, io: Io): (Disk, Option<Data>)
  {
    match CreateTemp(d, name, io.adoptTemp)
    case None => (d, None)
    case Some((d1, path)) =>
      if !io.adoptClose || !io.adoptRename || PartPath(name) !in d1.files then (Remove(d1, path), None)
      else
        var d2 := Remove(Rename(d1, PartPath(name), path), StatePath(name));
        if io.adoptOpen then (d2, Some(path)) else (Remove(d2, path), None)
  }

  datatype TempFile = TempFile(path: Data, adopted: bool)

  /** openTransferFile. */
  function OpenFile(d: Disk, name: Data, resuming: bool, io: Io): (Disk, Option<TempFile>)
  {
    var (d1, adopted) := if resuming then Adopt(d, name, io) else (d, None);
    if adopted.Some? then (d1, Some(TempFile(adopted.value, true)))
    else
      match CreateTemp(d1, name, io.freshTemp)
      case None => (d1, None)
      case Some((d2, path)) => (d2, Some(TempFile(path, false)))
  }

  function NewTransfer(p: Wire.Packet, tmp: Data): Transfer
    requires Sane(p)
  {
    Transfer(p.transferID, p.name, p.fileSize, p.sha256, p.blockCount, tmp, map[], {}, 0, 0, 0, 0)
  }

  function Adopting(t: Transfer, r: Resume): Transfer
  {
    t.(blocksDone := r.done, doneCount := |r.done|, written := r.written)
  }

  /** The transfer opened on a file, with the adopted partial's progress if it is one. */
  function Opened(p: Wire.Packet, file: TempFile, resume: Option<Resume>): Transfer
    requires Sane(p)
  {
    var t := NewTransfer(p, file.path);
    if file.adopted && resume.Some? then Adopting(t, resume.value) else t
  }

  function WithTransfer(s: Sys, t: Transfer): Sys
  {
    s.(asm := s.asm.(active := s.asm.active[t.id := t]))
  }

  /** The state after looking for a packet's transfer, and the transfer when there is one for it. */
  datatype Found = Found(sys: Sys, transfer: Option<Transfer>)

  /** transferFor. */
  ghost function TransferFor(lib: Lib, s: Sys, p: Wire.Packet, io: Io): Found
    requires Sane(p)
  {
    if p.transferID in s.asm.active then
      var t := s.asm.active[p.transferID];
      if t.name != p.name || t.fileSize != p.fileSize || t.blockCount != p.blockCount || t.sha256 != p.sha256 then
        Found(s, None)
      else
        Found(s, Some(t))
    else
      var resume := Probe(s.disk.files, p);
      if !Admits(lib, s.asm, p, resume, io) || !io.mkdir then Found(s, None)
      else Open(s, p, resume, io)
  }

  /** openTransfer and its registration. */
  function Open(s: Sys, p: Wire.Packet, resume: Option<Resume>, io: Io): Found
    requires Sane(p)
  {
    var (d, file) := OpenFile(s.disk, p.name, resume.Some?, io);
    if file.None? then Found(s.(disk := d), None)
    else
      var t := Opened(p, file.value, resume);
      var asm := s.asm.(active := s.asm.active[t.id := t], activeSize := s.asm.activeSize + t.fileSize);
      Found(Sys(asm, d), Some(t))
  }

  // ---- blocks ----

  predicate SameGeometry(b: Block, p: Wire.Packet)
  {
    && b.dataShards == p.dataShards && b.parityShards == p.parityShards && b.shardSize == p.shardSize
    && b.blockLen == p.blockLen && b.offset == p.blockOffset
  }

  function Footprint(p: Wire.Packet): nat
    requires Sane(p)
  {
    (p.dataShards + p.parityShards) * p.shardSize
  }

  function NewBlock(p: Wire.Packet): Block
    requires Sane(p)
  {
    Block(p.dataShards, p.parityShards, p.shardSize, p.blockLen, p.blockOffset, map[], 0, Footprint(p))
  }

  ghost predicate IsLeast(k: nat, ks: set<nat>) { k in ks && forall j | j in ks :: k <= j }

  lemma {:induction false} LeastExists(ks: set<nat>)
    requires ks != {}
    ensures exists k :: IsLeast(k, ks)
    decreases |ks|
  {
    var k :| k in ks;
    if ks == {k} {
      assert IsLeast(k, ks);
    } else {
      LeastExists(ks - {k});
      var m :| IsLeast(m, ks - {k});
      assert forall j | j in ks :: j == k || j in ks - {k};
      assert IsLeast(if k < m then k else m, ks);
    }
  }

  ghost function Least(ks: set<nat>): (k: nat)
    requires ks != {}
    ensures IsLeast(k, ks)
  {
    LeastExists(ks);
    var k :| IsLeast(k, ks);
    k
  }

  lemma LeastIs(k: nat, ks: set<nat>)
    requires IsLeast(k, ks)
    ensures Least(ks) == k
  {
  }

  /** evictOpenBlock: gives up the lowest open block when the newcomer lies above it. */
  ghost function Evict(t: Transfer, newIndex: nat): Option<Transfer>
  {
    if t.blocks.Keys == {} then None
    else
      var oldest := Least(t.blocks.Keys);
      if newIndex <= oldest then None
      else Some(t.(blocks := t.blocks - {oldest}, buffered := t.buffered - t.blocks[oldest].reserved))
  }

  lemma EvictIs(t: Transfer, newIndex: nat, oldest: nat)
    requires IsLeast(oldest, t.blocks.Keys)
    ensures Evict(t, newIndex) == if newIndex <= oldest then None
      else Some(t.(blocks := t.blocks - {oldest}, buffered := t.buffered - t.blocks[oldest].reserved))
  {
    LeastIs(oldest, t.blocks.Keys);
  }

  /** The part of blockFor that opens a block: the transfer after making room, and whether the block
      may be opened in it. */
  datatype Room = Room(transfer: Transfer, ok: bool)

  ghost function MakeRoom(t: Transfer, buffered: int, p: Wire.Packet): Room
    requires Sane(p)
  {
    var evicted := if |t.blocks| >= MAX_OPEN_BLOCKS then Evict(t, p.blockIndex) else Some(t);
    if evicted.None? then Room(t, false)
    else
      var t1 := evicted.value;
      var total := buffered - (t.buffered - t1.buffered);
      Room(t1, Footprint(p) <= MAX_TRANSFER_BUFFERED - t1.buffered && Footprint(p) <= MAX_BUFFERED - total)
  }

  /** Replaces a transfer and carries the change of its buffered bytes into the global counter. */
  function Rebuffer(s: Sys, old': Transfer, new': Transfer): Sys
  {
    s.(asm := s.asm.(active := s.asm.active[new'.id := new'],
                     buffered := s.asm.buffered - old'.buffered + new'.buffered))
  }

  function OpenBlock(t: Transfer, p: Wire.Packet): Transfer
    requires Sane(p)
  {
    t.(blocks := t.blocks[p.blockIndex := NewBlock(p)], buffered := t.buffered + Footprint(p))
  }

  /** blockFor: the state after it, and the block when the packet has one. */
  ghost function BlockFor(s: Sys, t: Transfer, p: Wire.Packet): Found
    requires Sane(p)
  {
    if p.blockIndex in t.blocks then
      Found(s, if SameGeometry(t.blocks[p.blockIndex], p) then Some(t) else None)
    else
      var room := MakeRoom(t, s.asm.buffered, p);
      if !room.ok then Found(Rebuffer(s, t, room.transfer), None)
      else
        var t1 := OpenBlock(room.transfer, p);
        Found(Rebuffer(s, t, t1), Some(t1))
  }

  /** The shard slots handed to the Reed-Solomon library. */
  function Slots(b: Block): seq<Option<Data>>
  {
    seq(b.dataShards + b.parityShards, i requires 0 <= i < b.dataShards + b.parityShards =>
      if i in b.shards then Some(b.shards[i]) else None)
  }

  /** reconstruct: the data shards, rebuilt when some are missing, or nothing when that fails. */
  function DataShards(lib: Lib, b: Block): Option<seq<Data>>
  {
    if forall i | 0 <= i < b.dataShards :: i in b.shards then
      Some(seq(b.dataShards, i requires 0 <= i < b.dataShards => b.shards[i]))
    else
      match lib.rebuild(b.dataShards, b.parityShards, Slots(b))
      case None => None
      case Some(r) =>
        if |r| < b.dataShards || exists i | 0 <= i < b.dataShards :: |r[i]| != b.shardSize then None
        else Some(seq(b.dataShards, i requires 0 <= i < b.dataShards => if i in b.shards then b.shards[i] else r[i]))
  }

  /** The writing loop of completeBlock; it stops at the first failing write. */
  function WriteShards(d: Disk, path: Data, off: nat, shards: seq<Data>, remaining: nat, writes: nat): (Disk, bool)
    decreases |shards|
  {
    if shards == [] || remaining == 0 then (d, true)
    else if writes == 0 then (d, false)
    else
      var n := Min(|shards[0]|, remaining);
      WriteShards(WriteAt(d, path, off, shards[0][..n]), path, off + n, shards[1..], remaining - n, writes - 1)
  }

  // ---- the end of a transfer ----

  ghost function Reserved(blocks: map<nat, Block>): map<nat, nat>
  {
    map b | b in blocks :: blocks[b].reserved
  }

  /** removeActive. */
  ghost function RemoveActive(asm: Asm, t: Transfer): Asm
  {
    asm.(active := asm.active - {t.id}, activeSize := asm.activeSize - t.fileSize,
         buffered := asm.buffered - Sum(Reserved(t.blocks)))
  }

  /** rememberDone. */
  function RememberDone(asm: Asm, id: Data, now: int): Asm
    requires |asm.doneOrder| >= MAX_REMEMBERED ==> asm.doneNext < |asm.doneOrder|
  {
    if id in asm.done then asm.(done := asm.done[id := now])
    else if |asm.doneOrder| < MAX_REMEMBERED then
      asm.(doneOrder := asm.doneOrder + [Record(id, now)], done := asm.done[id := now])
    else
      var old' := asm.doneOrder[asm.doneNext];
      var kept := if old'.id in asm.done && asm.done[old'.id] == old'.at then asm.done - {old'.id} else asm.done;
      asm.(doneOrder := asm.doneOrder[asm.doneNext := Record(id, now)],
           doneNext := (asm.doneNext + 1) % MAX_REMEMBERED, done := kept[id := now])
  }

  predicate RingFits(asm: Asm) { |asm.doneOrder| >= MAX_REMEMBERED ==> asm.doneNext < |asm.doneOrder| }

  /** failTransfer. */
  ghost function Fail(s: Sys, t: Transfer, now: int): Sys
    requires RingFits(s.asm)
  {
    Sys(RememberDone(RemoveActive(s.asm, t), t.id, now), Remove(s.disk, t.tmp))
  }

  /** landFile and, unless it fails, the removal of a superseded partial. The directory sync can fail
      after the file has its final name. */
  function Land(lib: Lib, d: Disk, t: Transfer, io: Io): Disk
  {
    if t.written != t.fileSize || !io.truncate then Remove(d, t.tmp)
    else
      var d1 := Truncate(d, t.tmp, t.fileSize);
      if !io.read || lib.sha(Content(d1.files, t.tmp)) != t.sha256 || !io.sync || !io.close || !io.rename then
        Remove(d1, t.tmp)
      else
        var d2 := Rename(d1, t.tmp, t.name);
        if io.syncDir then RemovePartial(d2, t.name) else d2
  }

  function RemovePartial(d: Disk, name: Data): Disk
  {
    Remove(Remove(d, PartPath(name)), StatePath(name))
  }

  /** finishTransfer. */
  ghost function Finish(lib: Lib, s: Sys, t: Transfer, now: int, io: Io): Sys
    requires RingFits(s.asm)
  {
    Sys(RememberDone(RemoveActive(s.asm, t), t.id, now), Land(lib, s.disk, t, io))
  }

  // ---- one datagram ----

  /** addShard. */
  function AddShard(b: Block, p: Wire.Packet): Block
    requires Sane(p)
  {
    b.(shards := b.shards[p.shardIndex := p.shard], have := b.have + 1)
  }

  /** A transfer after one of its blocks was written: the block is done and its memory released. */
  function Completed(t: Transfer, bi: nat, b: Block): Transfer
  {
    t.(blocks := t.blocks - {bi}, blocksDone := t.blocksDone + {bi}, doneCount := t.doneCount + 1,
       written := t.written + b.blockLen, buffered := t.buffered - b.reserved)
  }

  /** completeBlock and what follows it, for a block that has gathered enough shards. */
  ghost function Complete(lib: Lib, s: Sys, t: Transfer, bi: nat, b: Block, now: int, io: Io): Sys
    requires RingFits(s.asm)
  {
    match DataShards(lib, b)
    case None => Fail(s, t, now)
    case Some(data) =>
      var (d, ok) := WriteShards(s.disk, t.tmp, b.offset, data, b.blockLen, io.shardWrites);
      var s1 := s.(disk := d);
      if !ok then Fail(s1, t, now)
      else
        var t1 := Completed(t, bi, b);
        var s2 := Rebuffer(s1, t, t1);
        if t1.doneCount == t1.blockCount then Finish(lib, s2, t1, now, io) else s2
  }

  /** What a packet does to the open block it belongs to. */
  ghost function Feed(lib: Lib, s: Sys, t: Transfer, p: Wire.Packet, now: int, io: Io): Sys
    requires Sane(p) && RingFits(s.asm) && p.blockIndex in t.blocks
  {
    var b := t.blocks[p.blockIndex];
    if p.shardIndex in b.shards then s
    else
      var b1 := AddShard(b, p);
      if b1.have < b1.dataShards then WithTransfer(s, t.(blocks := t.blocks[p.blockIndex := b1]))
      else Complete(lib, s, t, p.blockIndex, b1, now, io)
  }

  /** handleDatagram after parsing. */
  ghost function Receive(lib: Lib, s: Sys, p: Wire.Packet, now: int, io: Io): Sys
    requires Sane(p) && RingFits(s.asm)
  {
    if p.transferID in s.asm.done then s
    else
      var f := TransferFor(lib, s, p, io);
      if f.transfer.None? then f.sys
      else
        var t := f.transfer.value.(lastSeen := now);
        Rest(lib, WithTransfer(f.sys, t), t, p, now, io)
  }

  /** handleDatagram from the point where the packet's transfer is known. */
  ghost function Rest(lib: Lib, s: Sys, t: Transfer, p: Wire.Packet, now: int, io: Io): Sys
    requires Sane(p) && RingFits(s.asm)
  {
    if p.blockIndex in t.blocksDone then s
    else
      var g := BlockFor(s, t, p);
      if g.transfer.None? then g.sys
      else Feed(lib, g.sys, g.transfer.value, p, now, io)
  }

  /** handleDatagram. */
  ghost function Handle(lib: Lib, s: Sys, b: Data, now: int, io: Io): Sys
    requires RingFits(s.asm)
  {
    match Wire.Parse(lib.crc, b)
    case Rejected(_) => s
    case Accepted(p) =>
      ParsedIsSane(lib.crc, b);
      Receive(lib, s, p, now, io)
  }

  // ---- the periodic sweep ----

  ghost function StateOf(t: Transfer): PartialState
  {
    PartialState(t.name, t.fileSize, t.sha256, t.blockCount, t.written, t.doneCount,
                 Some(Bitset.Encode(Bitset.WordsOf(t.blocksDone, t.blockCount))))
  }

  /** betterPartialExists. */
  predicate BetterExists(files: Dir, t: Transfer)
  {
    var st := LoadState(files, StatePath(t.name));
    && st.Some? && Describes(st.value, t.name, t.fileSize, t.sha256, t.blockCount)
    && st.value.doneCount >= t.doneCount
    && PartPath(t.name) in files
  }

  /** persistPartial, and the removal of what is not kept. */
  ghost function Persist(d: Disk, t: Transfer, now: int, io: Io): Disk
  {
    if t.doneCount == 0 || t.doneCount >= t.blockCount || BetterExists(d.files, t) || !io.sync || !io.close then
      Remove(d, t.tmp)
    else if !io.sidecar then Remove(RemovePartial(d, t.name), t.tmp)
    else
      var d1 := PutSidecar(d, StatePath(t.name), StateOf(t), now);
      if !io.rename then Remove(RemovePartial(d1, t.name), t.tmp)
      else Rename(d1, t.tmp, PartPath(t.name))
  }

  /** One step of expireStale's loop over the active transfers. */
  ghost function Expire(s: Sys, id: Data, now: int, io: Io): Sys
  {
    if id in s.asm.active && now - s.asm.active[id].lastSeen > STALE_AFTER then
      var t := s.asm.active[id];
      Sys(RemoveActive(s.asm, t), Persist(s.disk, t, now, io))
    else s
  }

  /** The loop, in the order the map iteration happens to take. */
  ghost function ExpireAll(s: Sys, order: seq<Data>, now: int, io: Data -> Io): Sys
    decreases |order|
  {
    if order == [] then s
    else ExpireAll(Expire(s, order[0], now, io(order[0])), order[1..], now, io)
  }

  /** One entry of reapPartials: an old resume state goes together with its partial. */
  function ReapOne(d: Disk, path: Data, now: int): Disk
  {
    if HasSuffix(path, STATE) && path in d.files && d.files[path].Sidecar?
       && d.files[path].mtime < now - PARTIAL_RETENTION
    then Remove(Remove(d, path), PartPath(TrimSuffix(path, STATE)))
    else d
  }

  /** reapPartials over a directory listing. */
  function Reap(d: Disk, listing: seq<Data>, now: int): Disk
    decreases |listing|
  {
    if listing == [] then d else Reap(ReapOne(d, listing[0], now), listing[1..], now)
  }

  /** Forgetting finished transfers after the window. */
  function Forget(asm: Asm, now: int): Asm
  {
    asm.(done := map id | id in asm.done && now - asm.done[id] <= DONE_REMEMBER :: asm.done[id])
  }

  /** expireStale. */
  ghost function Sweep(s: Sys, order: seq<Data>, listing: seq<Data>, now: int, io: Data -> Io): Sys
  {
    var s1 := ExpireAll(s, order, now, io);
    Sys(Forget(s1.asm, now), Reap(s1.disk, listing, now))
  }
}
