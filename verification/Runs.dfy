/** Whole runs of the catcher, with crashes at any instant, and what can land during one. */
module Runs {
  import opened Bytes
  import opened Library
  import opened Landing
  import opened MapSum
  import opened Machine
  import opened Invariant
  import opened Frames
  import opened Preserve
  import opened Beside
  import Wire

  datatype Action =
    | Datagram(bytes: Data, now: int, io: Io)
    | Tick(order: seq<Data>, listing: seq<Data>, now: int, ios: Data -> Io)

  /** An action runs to its end, or the process dies after some of its directory operations. */
  datatype Event = Full(action: Action) | Killed(action: Action, operations: nat)

  ghost function Act(lib: Lib, s: Sys, a: Action): Sys
    requires RingFits(s.asm)
  {
    match a
    case Datagram(b, now, io) => Handle(lib, s, b, now, io)
    case Tick(order, listing, now, ios) => Sweep(s, order, listing, now, ios)
  }

  /** The directory after the first n operations of an action that leads from d to e. */
  function Interrupted(d: Disk, e: Disk, n: nat): Dir
  {
    if n == 0 || |e.past| <= |d.past| then d.files
    else if |d.past| + n <= |e.past| then e.past[|d.past| + n - 1]
    else e.past[|e.past| - 1]
  }

  ghost function Step(lib: Lib, s: Sys, e: Event): Sys
    requires RingFits(s.asm)
  {
    var s1 := Act(lib, s, e.action);
    if e.Full? then s1
    else
      var files := Interrupted(s.disk, s1.disk, e.operations);
      Sys(IDLE, Disk(files, s1.disk.past + [files]))
  }

  /** Every event keeps the invariant. */
  lemma StepKeeps(lib: Lib, s: Sys, e: Event)
    requires Inv(s)
    ensures RingFits(s.asm) && Inv(Step(lib, s, e))
  {
    hide Handle, Sweep, AsmOk, TempsOk;
    RingFitsInv(s);
    match e.action {
      case Datagram(b, now, io) => HandleKeeps(lib, s, b, now, io);
      case Tick(order, listing, now, ios) => SweepKeeps(s, order, listing, now, ios);
    }
    IdleIsOk(Step(lib, s, e).disk);
  }

  ghost function Run(lib: Lib, s: Sys, events: seq<Event>): (r: Sys)
    requires Inv(s)
    ensures Inv(r)
    decreases |events|
  {
    if events == [] then s
    else
      hide Inv, Step, RingFits;
      StepKeeps(lib, s, events[0]);
      Run(lib, Step(lib, s, events[0]), events[1..])
  }

  // ---- progress is never lost ----

  /** The packet of an event, if it has one. */
  ghost predicate Delivers(lib: Lib, e: Event, p: Wire.Packet)
  {
    e.Full? && e.action.Datagram? && Wire.Parse(lib.crc, e.action.bytes) == Wire.Accepted(p)
  }

  /** From t to n, in the same temporary file: no done block is lost, and no byte changes but where the
      block of a packet lies that was not done before and is now. */
  ghost predicate Progressed(lib: Lib, e: Event, t: Transfer, n: Transfer, f: Dir, g: Dir)
  {
    && n.id == t.id && n.name == t.name && n.fileSize == t.fileSize && n.sha256 == t.sha256 && n.blockCount == t.blockCount
    && n.tmp == t.tmp && t.written <= n.written
    && ((n.blocksDone == t.blocksDone && Content(g, t.tmp) == Content(f, t.tmp)) ||
        (exists p :: Delivers(lib, e, p) && Stored(t, n, f, g, p)))
  }

  ghost predicate Stored(t: Transfer, n: Transfer, f: Dir, g: Dir, p: Wire.Packet)
  {
    && p.transferID == t.id && p.blockIndex >= 0 && p.blockIndex !in t.blocksDone && n.blocksDone == t.blocksDone + {p.blockIndex}
    && 0 <= p.blockOffset && 0 <= p.blockLen
    && SameOutside(Content(f, t.tmp), Content(g, t.tmp), p.blockOffset, p.blockOffset + p.blockLen)
  }

  /** Whatever happens to a transfer that is active before and after, be it an eviction, a full budget, a
      datagram of any transfer or a sweep, its completed blocks never regress. */
  lemma DoneGrows(lib: Lib, s: Sys, e: Event, id: Data)
    requires Inv(s) && id in s.asm.active
    ensures RingFits(s.asm)
    ensures var r := Step(lib, s, e);
      id in r.asm.active ==> Progressed(lib, e, s.asm.active[id], r.asm.active[id], s.disk.files, r.disk.files)
  {
    hide Inv, Handle, Sweep, Progressed, RingFits;
    RingFitsInv(s);
    if e.Full? {
      match e.action
      case Tick(order, listing, now, ios) =>
        SweepLeaves(s, order, listing, now, ios, id);
        LeftProgressed(lib, s, Sweep(s, order, listing, now, ios), e, id);
      case Datagram(b, now, io) => HandleProgressed(lib, s, e, id);
    }
  }

  lemma LeftProgressed(lib: Lib, s: Sys, r: Sys, e: Event, id: Data)
    requires id in s.asm.active && Left(s, r, id)
    ensures id in r.asm.active ==> Progressed(lib, e, s.asm.active[id], r.asm.active[id], s.disk.files, r.disk.files)
  {
  }

  lemma HandleProgressed(lib: Lib, s: Sys, e: Event, id: Data)
    requires Inv(s) && id in s.asm.active && e.Full? && e.action.Datagram?
    ensures RingFits(s.asm)
    ensures var r := Handle(lib, s, e.action.bytes, e.action.now, e.action.io);
      id in r.asm.active ==> Progressed(lib, e, s.asm.active[id], r.asm.active[id], s.disk.files, r.disk.files)
  {
    hide Inv, Receive, Wire.Parse, RingFits, Handled, Progressed, Sane;
    RingFitsInv(s);
    match Wire.Parse(lib.crc, e.action.bytes)
    case Rejected(_) =>
      LeftSelf(s, id);
      LeftProgressed(lib, s, s, e, id);
    case Accepted(p) =>
      ParsedIsSane(lib.crc, e.action.bytes);
      var names := ReceiveBeside(lib, s, p, e.action.now, e.action.io);
      var r := Receive(lib, s, p, e.action.now, e.action.io);
      ActiveId(s, id);
      HandledProgressed(lib, s, r, e, p, names, id);
  }

  lemma LeftSelf(s: Sys, id: Data)
    requires id in s.asm.active
    ensures Left(s, s, id)
  {
  }

  lemma HandledProgressed(lib: Lib, s: Sys, r: Sys, e: Event, p: Wire.Packet, names: set<Data>, id: Data)
    requires Inv(s) && id in s.asm.active && s.asm.active[id].id == id && Sane(p)
    requires e.Full? && e.action.Datagram? && Delivers(lib, e, p) && Handled(s, r, p, e.action.now, names)
    ensures id in r.asm.active ==> Progressed(lib, e, s.asm.active[id], r.asm.active[id], s.disk.files, r.disk.files)
  {
    hide Inv, Own, AgreeOutside, SameOutside, Content, Delivers, Sane;
    if p.transferID != id {
      TmpElsewhere(s, p.transferID, p.name, names, id);
      OutsideSame(s.disk.files, r.disk.files, names, s.asm.active[id].tmp);
      SameContent(s.disk.files, r.disk.files, s.asm.active[id].tmp);
    } else if id in r.asm.active && r != s {
      var t, n := s.asm.active[id], r.asm.active[id];
      SaneRange(p);
      if n.blocksDone != t.blocksDone {
        assert Stored(t, n, s.disk.files, r.disk.files, p);
      }
    }
  }

  lemma SaneRange(p: Wire.Packet)
    requires Sane(p)
    ensures p.blockIndex >= 0 && 0 <= p.blockOffset && 0 <= p.blockLen
  {
  }

  lemma SameContent(f: Dir, g: Dir, path: Data)
    requires SameAt(f, g, path)
    ensures Content(g, path) == Content(f, path)
  {
  }

  /** The transfer is active at every instant of a run. */
  ghost predicate Throughout(lib: Lib, s: Sys, events: seq<Event>, id: Data)
    requires Inv(s)
    decreases |events|
  {
    id in s.asm.active &&
    (events != [] ==>
      hide *;
      StepKeeps(lib, s, events[0]);
      Throughout(lib, Step(lib, s, events[0]), events[1..], id))
  }

  /** Over whole runs: as long as a transfer is active its completed blocks only grow. */
  lemma {:induction false} DoneGrowsInRuns(lib: Lib, s: Sys, events: seq<Event>, id: Data)
    requires Inv(s) && Throughout(lib, s, events, id)
    ensures var r := Run(lib, s, events);
      && id in s.asm.active && id in r.asm.active
      && s.asm.active[id].blocksDone <= r.asm.active[id].blocksDone && s.asm.active[id].written <= r.asm.active[id].written
      && s.asm.active[id].tmp == r.asm.active[id].tmp
    decreases |events|
  {
    hide Inv, Step, RingFits, Stored, Delivers;
    if events != [] {
      StepKeeps(lib, s, events[0]);
      DoneGrows(lib, s, events[0], id);
      var r := Step(lib, s, events[0]);
      assert id in r.asm.active;
      StoredGrows(lib, events[0], s.asm.active[id], r.asm.active[id], s.disk.files, r.disk.files);
      DoneGrowsInRuns(lib, r, events[1..], id);
    }
  }

  lemma StoredGrows(lib: Lib, e: Event, t: Transfer, n: Transfer, f: Dir, g: Dir)
    requires Progressed(lib, e, t, n, f, g)
    ensures t.blocksDone <= n.blocksDone
  {
  }

  /** A catcher just started over some landing directory, with whatever partials and stale states
      earlier processes left in it. */
  function Started(files: Dir): (s: Sys)
    ensures Inv(s)
  {
    IdleIsOk(Disk(files, []));
    Sys(IDLE, Disk(files, []))
  }

  // ---- what can land ----

  datatype Announcement = Announcement(name: Data, fileSize: int, sha256: Data)

  /** The files announced by the well-formed datagrams among some actions. */
  function Announced(lib: Lib, a: Action): set<Announcement>
  {
    if a.Datagram? && Wire.Parse(lib.crc, a.bytes).Accepted? then
      var p := Wire.Parse(lib.crc, a.bytes).packet;
      {Announcement(p.name, p.fileSize, p.sha256)}
    else {}
  }

  function Heard(lib: Lib, events: seq<Event>): set<Announcement>
  {
    if events == [] then {} else Announced(lib, events[0].action) + Heard(lib, events[1..])
  }

  /** A file that passed every gate: its name is valid, and its length and hash are those some
      datagram announced for that name, within the size limit of its kind. */
  ghost predicate Verified(lib: Lib, name: Data, f: File, heard: set<Announcement>)
  {
    && f.Plain? && lib.validName(name)
    && SizeLimit(name).Some? && |f.bytes| <= SizeLimit(name).value
    && Announcement(name, |f.bytes|, lib.sha(f.bytes)) in heard
  }

  /** Every bundle file was there before the catcher started or passed every gate. */
  ghost predicate SafeDir(lib: Lib, files: Dir, base: Dir, heard: set<Announcement>)
  {
    forall p | p in files && IsFinal(p) ::
      (p in base && files[p] == base[p]) || Verified(lib, p, files[p], heard)
  }

  /** ... at every instant. */
  ghost predicate SafeDisk(lib: Lib, d: Disk, base: Dir, heard: set<Announcement>)
  {
    SafeDir(lib, d.files, base, heard) && forall k | 0 <= k < |d.past| :: SafeDir(lib, d.past[k], base, heard)
  }

  ghost predicate KnownTransfer(lib: Lib, t: Transfer, heard: set<Announcement>)
  {
    lib.validName(t.name) && Announcement(t.name, t.fileSize, t.sha256) in heard
  }

  ghost predicate Safe(lib: Lib, s: Sys, base: Dir, heard: set<Announcement>)
  {
    && SafeDisk(lib, s.disk, base, heard)
    && forall id | id in s.asm.active :: KnownTransfer(lib, s.asm.active[id], heard)
  }

  lemma SafeAgree(lib: Lib, f: Dir, g: Dir, names: set<Data>, base: Dir, heard: set<Announcement>)
    requires SafeDir(lib, f, base, heard) && AgreeOutside(f, g, names) && forall p | p in names :: !IsFinal(p)
    ensures SafeDir(lib, g, base, heard)
  {
    hide SizeLimit, Verified;
  }

  /** Operations on private names keep the landing directory safe at every instant. */
  lemma SafeTouches(lib: Lib, d: Disk, e: Disk, names: set<Data>, base: Dir, heard: set<Announcement>)
    requires SafeDisk(lib, d, base, heard) && Touches(d, e, names) && forall p | p in names :: !IsFinal(p)
    ensures SafeDisk(lib, e, base, heard)
  {
    hide SizeLimit, SafeDir, AgreeOutside, IsFinal;
    SafeAgree(lib, d.files, e.files, names, base, heard);
    forall k | 0 <= k < |e.past| ensures SafeDir(lib, e.past[k], base, heard) {
      if k < |d.past| {
        assert e.past[k] == d.past[k];
      } else {
        SafeAgree(lib, d.files, e.past[k], names, base, heard);
      }
    }
  }

  lemma PrivateNotFinal(name: Data, tmp: Data)
    requires IsTemp(tmp)
    ensures forall p | p in Private(name, tmp) :: !IsFinal(p)
  {
    hide IsTemp, IsFinal, PartPath, StatePath;
    NamesApart(tmp, name, name);
  }

  lemma OpenFileSafe(lib: Lib, d: Disk, name: Data, resuming: bool, io: Io, base: Dir, heard: set<Announcement>)
    requires SafeDisk(lib, d, base, heard)
    ensures SafeDisk(lib, OpenFile(d, name, resuming, io).0, base, heard)
  {
    hide Adopt, IsTemp, IsFinal, SafeDisk, Private, PartPath, StatePath;
    var d1 := d;
    if resuming {
      var tmp := AdoptTouches(d, name, io);
      d1 := Adopt(d, name, io).0;
      PrivateNotFinal(name, tmp);
      SafeTouches(lib, d, d1, Private(name, tmp), base, heard);
    }
    var c := CreateTemp(d1, name, io.freshTemp);
    if c.Some? {
      TempIsTemp(name, io.freshTemp.value);
      NamesApart(c.value.1, name, name);
      NextTouches(d1, c.value.0.files, {c.value.1});
      SafeTouches(lib, d1, c.value.0, {c.value.1}, base, heard);
    }
  }

  /** The landing itself: the only operation that creates a bundle file. */
  lemma LandSafe(lib: Lib, d: Disk, t: Transfer, io: Io, base: Dir, heard: set<Announcement>)
    requires SafeDisk(lib, d, base, heard) && KnownTransfer(lib, t, heard)
    requires SizeOk(t) && TempOk(t, d.files)
    ensures SafeDisk(lib, Land(lib, d, t, io), base, heard)
  {
    hide IsTemp, IsFinal, SafeDisk, PartPath, StatePath, Remove, Rename, Truncate, RemovePartial, SizeLimit;
    NamesApart(t.tmp, t.name, t.name);
    RemoveTouches(d, t.tmp);
    SafeTouches(lib, d, Remove(d, t.tmp), {t.tmp}, base, heard);
    var d1 := Truncate(d, t.tmp, t.fileSize);
    TruncateTouches(d, t.tmp, t.fileSize);
    SafeTouches(lib, d, d1, {t.tmp}, base, heard);
    RemoveTouches(d1, t.tmp);
    SafeTouches(lib, d1, Remove(d1, t.tmp), {t.tmp}, base, heard);
    TruncatedContent(d, t);
    if lib.sha(Content(d1.files, t.tmp)) == t.sha256 {
      var d2 := Rename(d1, t.tmp, t.name);
      RenameSafe(lib, d1, t, base, heard);
      RemovePartialTouches(d2, t.name, Private(t.name, t.tmp));
      SafeTouches(lib, d2, RemovePartial(d2, t.name), Private(t.name, t.tmp), base, heard);
    }
  }

  lemma TruncatedContent(d: Disk, t: Transfer)
    requires TempOk(t, d.files)
    ensures var d1 := Truncate(d, t.tmp, t.fileSize);
      t.tmp in d1.files && d1.files[t.tmp].Plain? && |d1.files[t.tmp].bytes| == t.fileSize
  {
    hide IsTemp;
  }

  lemma RenameSafe(lib: Lib, d: Disk, t: Transfer, base: Dir, heard: set<Announcement>)
    requires SafeDisk(lib, d, base, heard) && KnownTransfer(lib, t, heard) && SizeOk(t) && !IsFinal(t.tmp)
    requires t.tmp in d.files && d.files[t.tmp].Plain? && |d.files[t.tmp].bytes| == t.fileSize
    requires lib.sha(Content(d.files, t.tmp)) == t.sha256
    ensures SafeDisk(lib, Rename(d, t.tmp, t.name), base, heard)
  {
    hide SizeLimit;
    var e := Rename(d, t.tmp, t.name);
    assert Verified(lib, t.name, e.files[t.name], heard);
    assert SafeDir(lib, e.files, base, heard);
  }

  // ---- every step is safe ----

  lemma TransferForSafe(lib: Lib, s: Sys, p: Wire.Packet, io: Io, base: Dir, heard: set<Announcement>)
    requires Safe(lib, s, base, heard) && Sane(p) && Announcement(p.name, p.fileSize, p.sha256) in heard
    ensures Safe(lib, TransferFor(lib, s, p, io).sys, base, heard)
  {
    hide SafeDisk, OpenFile, Probe;
    var resume := Probe(s.disk.files, p);
    OpenFileSafe(lib, s.disk, p.name, resume.Some?, io, base, heard);
  }

  lemma BlockForSafe(lib: Lib, s: Sys, t: Transfer, p: Wire.Packet, base: Dir, heard: set<Announcement>)
    requires Safe(lib, s, base, heard) && Sane(p) && Registered(s, t)
    ensures Safe(lib, BlockFor(s, t, p).sys, base, heard)
  {
    hide SafeDisk, Footprint;
  }

  lemma RemoveSafe(lib: Lib, s: Sys, t: Transfer, d: Disk, now: int, base: Dir, heard: set<Announcement>)
    requires Safe(lib, s, base, heard) && SafeDisk(lib, d, base, heard) && RingFits(s.asm)
    ensures Safe(lib, Sys(RememberDone(RemoveActive(s.asm, t), t.id, now), d), base, heard)
  {
    hide SafeDisk, RememberDone, Sum, Reserved;
    RememberActive(RemoveActive(s.asm, t), t.id, now);
  }

  lemma FailSafe(lib: Lib, s: Sys, t: Transfer, now: int, base: Dir, heard: set<Announcement>)
    requires Safe(lib, s, base, heard) && RingFits(s.asm) && IsTemp(t.tmp)
    ensures Safe(lib, Fail(s, t, now), base, heard)
  {
    hide SafeDisk, RememberDone, RemoveActive, Remove, IsFinal, IsTemp;
    NamesApart(t.tmp, t.name, t.name);
    RemoveTouches(s.disk, t.tmp);
    SafeTouches(lib, s.disk, Remove(s.disk, t.tmp), {t.tmp}, base, heard);
    RemoveSafe(lib, s, t, Remove(s.disk, t.tmp), now, base, heard);
  }

  lemma CompleteSafe(lib: Lib, s: Sys, t: Transfer, bi: nat, b: Block, now: int, io: Io, base: Dir, heard: set<Announcement>)
    requires Inv(s) && Safe(lib, s, base, heard) && Registered(s, t) && bi in t.blocks
    requires b.blockLen == t.blocks[bi].blockLen && b.offset == t.blocks[bi].offset
    ensures RingFits(s.asm) && Safe(lib, Complete(lib, s, t, bi, b, now, io), base, heard)
  {
    hide Safe, SafeDisk, RememberDone, RemoveActive, Remove, IsFinal, IsTemp, WriteShards, DataShards, Land, TransferOk,
      CountersOk, RingOk, Completed, Fail, BlockOk;
    RingFitsInv(s);
    BlockFacts(s, t, bi);
    assert TempOk(t, s.disk.files);
    var data := DataShards(lib, b);
    if data.None? {
      FailSafe(lib, s, t, now, base, heard);
    } else {
      var (d, ok) := WriteShards(s.disk, t.tmp, b.offset, data.value, b.blockLen, io.shardWrites);
      NamesApart(t.tmp, t.name, t.name);
      WriteShardsTouches(s.disk, t.tmp, b.offset, data.value, b.blockLen, io.shardWrites);
      DiskOfSafe(lib, s, base, heard);
      SafeTouches(lib, s.disk, d, {t.tmp}, base, heard);
      var s1 := s.(disk := d);
      WithDiskSafe(lib, s, d, base, heard);
      if !ok {
        FailSafe(lib, s1, t, now, base, heard);
      } else {
        var t1 := Completed(t, bi, b);
        CompletedFrame(t, bi, b);
        var s2 := Rebuffer(s1, t, t1);
        ReplacedSafe(lib, s1, t, t1, base, heard);
        if t1.doneCount == t1.blockCount {
          WriteShardsBounded(s.disk, t.tmp, b.offset, data.value, b.blockLen, io.shardWrites);
          SizeFrame(t, t1);
          KnownFrame(lib, s, t, t1, base, heard);
          LandSafe(lib, d, t1, io, base, heard);
          RemoveSafe(lib, s2, t1, Land(lib, d, t1, io), now, base, heard);
        }
      }
    }
  }

  lemma SizeFrame(t: Transfer, t1: Transfer)
    requires TransferOk(t) && t1.fileSize == t.fileSize && t1.name == t.name && t1.blockCount == t.blockCount
    ensures SizeOk(t1)
  {
    hide SizeLimit;
  }

  lemma KnownFrame(lib: Lib, s: Sys, t: Transfer, t1: Transfer, base: Dir, heard: set<Announcement>)
    requires Safe(lib, s, base, heard) && Registered(s, t)
    requires t1.fileSize == t.fileSize && t1.name == t.name && t1.sha256 == t.sha256
    ensures KnownTransfer(lib, t1, heard)
  {
  }

  lemma DiskOfSafe(lib: Lib, s: Sys, base: Dir, heard: set<Announcement>)
    requires Safe(lib, s, base, heard)
    ensures SafeDisk(lib, s.disk, base, heard)
  {
  }

  lemma WithDiskSafe(lib: Lib, s: Sys, d: Disk, base: Dir, heard: set<Announcement>)
    requires Safe(lib, s, base, heard) && SafeDisk(lib, d, base, heard)
    ensures Safe(lib, s.(disk := d), base, heard)
  {
    hide SafeDisk;
  }

  lemma ReplacedSafe(lib: Lib, s: Sys, t: Transfer, t1: Transfer, base: Dir, heard: set<Announcement>)
    requires Safe(lib, s, base, heard) && Registered(s, t)
    requires t1.id == t.id && t1.fileSize == t.fileSize && t1.name == t.name && t1.sha256 == t.sha256
    ensures Safe(lib, Rebuffer(s, t, t1), base, heard) && Safe(lib, WithTransfer(s, t1), base, heard)
  {
    hide SafeDisk;
  }

  lemma ReceiveSafe(lib: Lib, s: Sys, p: Wire.Packet, now: int, io: Io, base: Dir, heard: set<Announcement>)
    requires Inv(s) && Safe(lib, s, base, heard) && Sane(p)
    requires Announcement(p.name, p.fileSize, p.sha256) in heard
    ensures RingFits(s.asm) && Safe(lib, Receive(lib, s, p, now, io), base, heard)
  {
    hide Safe, Inv, TransferFor, BlockFor, Complete, RingFits, Sane, AddShard;
    RingFitsInv(s);
    RingStays(lib, s, p, now, io);
    if p.transferID !in s.asm.done {
      TransferForKeeps(lib, s, p, io);
      TransferForSafe(lib, s, p, io, base, heard);
      var f := TransferFor(lib, s, p, io);
      if f.transfer.Some? {
        var t := f.transfer.value.(lastSeen := now);
        TouchKeeps(f.sys, f.transfer.value, now);
        ReplacedSafe(lib, f.sys, f.transfer.value, t, base, heard);
        var s1 := WithTransfer(f.sys, t);
        if p.blockIndex !in t.blocksDone {
          BlockForKeeps(s1, t, p);
          BlockForSafe(lib, s1, t, p, base, heard);
          var g := BlockFor(s1, t, p);
          if g.transfer.Some? {
            FeedSafe(lib, g.sys, g.transfer.value, p, now, io, base, heard);
          }
        }
      }
    }
  }

  lemma FeedSafe(lib: Lib, s: Sys, t: Transfer, p: Wire.Packet, now: int, io: Io, base: Dir, heard: set<Announcement>)
    requires Inv(s) && Safe(lib, s, base, heard) && Sane(p) && Registered(s, t)
    requires p.blockIndex in t.blocks && SameGeometry(t.blocks[p.blockIndex], p)
    ensures RingFits(s.asm) && Safe(lib, Feed(lib, s, t, p, now, io), base, heard)
  {
    hide Safe, Inv, Complete, RingFits, Sane;
    RingFitsInv(s);
    var b := t.blocks[p.blockIndex];
    if p.shardIndex !in b.shards {
      var b1 := AddShard(b, p);
      if b1.have < b1.dataShards {
        ReplacedSafe(lib, s, t, t.(blocks := t.blocks[p.blockIndex := b1]), base, heard);
      } else {
        CompleteSafe(lib, s, t, p.blockIndex, b1, now, io, base, heard);
      }
    }
  }

  lemma ExpireSafe(lib: Lib, s: Sys, id: Data, now: int, io: Io, base: Dir, heard: set<Announcement>)
    requires Inv(s) && Safe(lib, s, base, heard)
    ensures Safe(lib, Expire(s, id, now, io), base, heard)
  {
    hide SafeDisk, Persist, IsTemp, IsFinal, Private, AsmOk;
    if id in s.asm.active {
      var t := s.asm.active[id];
      assert TempOk(t, s.disk.files);
      PersistTouches(s.disk, t, now, io);
      PrivateNotFinal(t.name, t.tmp);
      SafeTouches(lib, s.disk, Persist(s.disk, t, now, io), Private(t.name, t.tmp), base, heard);
    }
  }

  lemma {:induction false} ExpireAllSafe(lib: Lib, s: Sys, order: seq<Data>, now: int, io: Data -> Io, base: Dir, heard: set<Announcement>)
    requires Inv(s) && Safe(lib, s, base, heard)
    ensures Safe(lib, ExpireAll(s, order, now, io), base, heard)
    decreases |order|
  {
    hide Safe, Inv, Expire;
    if order != [] {
      ExpireKeeps(s, order[0], now, io(order[0]));
      ExpireSafe(lib, s, order[0], now, io(order[0]), base, heard);
      ExpireAllSafe(lib, Expire(s, order[0], now, io(order[0])), order[1..], now, io, base, heard);
    }
  }

  lemma SweepSafe(lib: Lib, s: Sys, order: seq<Data>, listing: seq<Data>, now: int, ios: Data -> Io, base: Dir, heard: set<Announcement>)
    requires Inv(s) && Safe(lib, s, base, heard)
    ensures Safe(lib, Sweep(s, order, listing, now, ios), base, heard)
  {
    hide SafeDisk, ExpireAll, Reap, IsTemp, IsFinal, Inv;
    ExpireAllSafe(lib, s, order, now, ios, base, heard);
    var s1 := ExpireAll(s, order, now, ios);
    ReapTouches(s1.disk, listing, now);
    SafeTouches(lib, s1.disk, Reap(s1.disk, listing, now), Reapable(s1.disk.files), base, heard);
  }

  lemma ActSafe(lib: Lib, s: Sys, a: Action, base: Dir, heard: set<Announcement>)
    requires Inv(s) && Safe(lib, s, base, heard) && Announced(lib, a) <= heard
    ensures RingFits(s.asm) && Safe(lib, Act(lib, s, a), base, heard)
  {
    hide Safe, Inv, Receive, Sweep, Wire.Parse, Sane;
    RingFitsInv(s);
    match a
    case Datagram(b, now, io) =>
      if Wire.Parse(lib.crc, b).Accepted? {
        ParsedIsSane(lib.crc, b);
        ReceiveSafe(lib, s, Wire.Parse(lib.crc, b).packet, now, io, base, heard);
      }
    case Tick(order, listing, now, ios) =>
      SweepSafe(lib, s, order, listing, now, ios, base, heard);
  }

  lemma StepSafe(lib: Lib, s: Sys, e: Event, base: Dir, heard: set<Announcement>)
    requires Inv(s) && Safe(lib, s, base, heard) && Announced(lib, e.action) <= heard
    ensures RingFits(s.asm) && Safe(lib, Step(lib, s, e), base, heard)
  {
    hide SafeDir, Inv, Act, Announced;
    ActSafe(lib, s, e.action, base, heard);
  }

  lemma {:induction false} RunSafe(lib: Lib, s: Sys, events: seq<Event>, base: Dir, heard: set<Announcement>)
    requires Inv(s) && Safe(lib, s, base, heard) && Heard(lib, events) <= heard
    ensures Safe(lib, Run(lib, s, events), base, heard)
    decreases |events|
  {
    hide Inv, Safe, Step, Announced, RingFits;
    if events != [] {
      StepKeeps(lib, s, events[0]);
      StepSafe(lib, s, events[0], base, heard);
      RunSafe(lib, Step(lib, s, events[0]), events[1..], base, heard);
    }
  }

  /** Landing safety. Over any run (any datagrams, sweeps, failures, stale or wrong resume states
      found in the directory, and crashes between any two directory operations), at every instant
      every bundle file in the landing directory either was there before the catcher started or has
      a valid name, a length and SHA-256 that a datagram announced for that name, and no more bytes
      than its kind allows. */
  lemma LandingSafety(lib: Lib, base: Dir, events: seq<Event>)
    ensures var d := Run(lib, Started(base), events).disk;
      && SafeDir(lib, d.files, base, Heard(lib, events))
      && forall k | 0 <= k < |d.past| :: SafeDir(lib, d.past[k], base, Heard(lib, events))
  {
    hide Inv, Run, Heard, Verified, IsFinal;
    var heard := Heard(lib, events);
    assert Safe(lib, Started(base), base, heard);
    RunSafe(lib, Started(base), events, base, heard);
  }

  /** Reassembly accounting over every run. */
  lemma Accounting(lib: Lib, base: Dir, events: seq<Event>)
    ensures var asm := Run(lib, Started(base), events).asm;
      && |asm.active| <= 16 && |asm.done| <= 4096
      && asm.buffered == Sum(Buffers(asm.active)) && 0 <= asm.buffered <= 256 * 1024 * 1024
      && asm.activeSize == Sum(Sizes(asm.active)) && 0 <= asm.activeSize <= 128 * 1024 * 1024 * 1024
      && (forall id | id in asm.active ::
            var t := asm.active[id];
            && |t.blocks| <= 32 && t.buffered == Sum(Reserved(t.blocks)) && t.buffered <= 64 * 1024 * 1024
            && t.doneCount == |t.blocksDone| && t.doneCount < t.blockCount
            && t.blocksDone !! t.blocks.Keys
            && (forall b | b in t.blocksDone || b in t.blocks :: b < t.blockCount)
            && (forall b | b in t.blocks :: |t.blocks[b].shards| < t.blocks[b].dataShards))
      && asm.active.Keys !! asm.done.Keys
  {
    hide Run, Sum, Reserved, Buffers, Sizes;
    RememberedAtMost(Run(lib, Started(base), events).asm);
  }

  /** The quota arithmetic of an admission test stays inside int64. */
  ghost predicate QuotaFits(s: Sys, p: Wire.Packet, stored: nat)
    requires Sane(p)
  {
    var resume := Probe(s.disk.files, p);
    var credit := if resume.Some? then resume.value.diskSize else 0;
    var counted := Max(stored - credit, 0);
    && Wire.IsInt64(stored - credit) && Wire.IsInt64(QUOTA - s.asm.activeSize)
    && (counted <= QUOTA - s.asm.activeSize ==> 0 <= QUOTA - counted - s.asm.activeSize <= QUOTA)
  }

  /** The budget arithmetic for one more block, and the counters after one more, fit their types. */
  ghost predicate BudgetsFit(s: Sys, t: Transfer, p: Wire.Packet)
    requires Sane(p)
  {
    && Wire.IsInt64(t.written + p.blockLen) && 0 <= t.doneCount + 1 < 0x1_0000_0000
    && 0 <= MAX_TRANSFER_BUFFERED - t.buffered && t.buffered + Footprint(p) < 0x8000_0000
    && 0 <= MAX_BUFFERED - s.asm.buffered && s.asm.buffered + Footprint(p) < 0x8000_0000
  }

  lemma QuotaHeadroom(s: Sys, p: Wire.Packet, stored: nat)
    requires Inv(s) && Sane(p) && Wire.IsInt64(stored) && Wire.IsInt64(p.fileSize)
    ensures QuotaFits(s, p, stored)
  {
    hide Probe, Sum, ActiveOk, RingOk, TempsOk, Sane, Sizes, Buffers;
    if Probe(s.disk.files, p).Some? {
      ProbeBounds(s.disk.files, p);
    }
  }

  lemma BudgetHeadroom(s: Sys, t: Transfer, p: Wire.Packet)
    requires Inv(s) && Registered(s, t) && Sane(p)
    ensures BudgetsFit(s, t, p)
  {
    hide Sum, Reserved, BlocksOk, RingOk, TempsOk, SizeLimit, Buffers, Sizes, Wire.NameOk;
    NewBlockOk(p);
    WrittenBound(t);
    Wire.ShardsFit(p.dataShards, p.shardSize);
  }

  lemma WrittenBound(t: Transfer)
    requires TransferOk(t)
    ensures t.doneCount < 0x1_0000_0000 - 1 && t.written <= 0x1000_0000_0000_0000
  {
    hide BlocksOk, BudgetOk;
    MulLe(t.doneCount, Wire.MAX_BLOCK_COUNT, MAX_BLOCK_BYTES);
  }

  /** Machine integers: in every reachable state, whatever packet arrives next, the sums and differences
      the code forms in int64 and uint32 are the mathematical ones. */
  lemma NothingWraps(lib: Lib, base: Dir, events: seq<Event>, b: Data, stored: nat)
    requires Wire.Parse(lib.crc, b).Accepted? && Wire.IsInt64(stored)
    ensures var s, p := Run(lib, Started(base), events), Wire.Parse(lib.crc, b).packet;
      Sane(p) && QuotaFits(s, p, stored) && forall id | id in s.asm.active :: BudgetsFit(s, s.asm.active[id], p)
  {
    hide Run, Inv, Sane, QuotaFits, BudgetsFit, Wire.Parse, Wire.Typed;
    ParsedIsSane(lib.crc, b);
    Wire.ParsedIsValid(lib.crc, b);
    var s, p := Run(lib, Started(base), events), Wire.Parse(lib.crc, b).packet;
    TypedSize(p);
    QuotaHeadroom(s, p, stored);
    forall id | id in s.asm.active ensures BudgetsFit(s, s.asm.active[id], p) {
      ActiveIds(s, id);
      BudgetHeadroom(s, s.asm.active[id], p);
    }
  }

  lemma TypedSize(p: Wire.Packet)
    requires Wire.Typed(p)
    ensures Wire.IsInt64(p.fileSize)
  {
  }

  lemma ActiveIds(s: Sys, id: Data)
    requires Inv(s) && id in s.asm.active
    ensures Registered(s, s.asm.active[id])
  {
    hide TransferOk;
  }
}
