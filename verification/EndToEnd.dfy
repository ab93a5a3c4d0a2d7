/** From the first datagram to the landed file: the delivery theorem over whole runs. */
module EndToEnd {
  import opened Bytes
  import opened Library
  import opened Landing
  import opened MapSum
  import opened Machine
  import opened Invariant
  import opened Frames
  import opened Preserve
  import opened Delivery
  import opened Progress
  import opened Runs
  import opened Beside
  import S = Sender
  import Wire

  // ---- opening the transfer ----

  /** What the directory holds of the job's file from an earlier attempt. */
  ghost function Kept(j: Job, files: Dir): Option<Resume>
    requires JobOk(j)
  {
    CountPositive(j);
    Probe(files, Packet(j, 0, 0))
  }

  lemma SameProbe(j: Job, files: Dir, b: nat, si: nat)
    requires JobOk(j) && b < Count(j) && si < S.Total(j.pl)
    ensures Probe(files, Packet(j, b, si)) == Kept(j, files)
  {
    hide JobOk, Count, Packet, Sane, DecodedSet, StatePath, PartPath;
    CountPositive(j);
    PacketFields(j, b, si);
    PacketFields(j, 0, 0);
  }

  ghost function HeldIn(j: Job, files: Dir): (held: set<nat>)
    requires JobOk(j)
    ensures forall b | b in held :: b < Count(j)
  {
    if Kept(j, files).Some? then
      KeptBounds(j, files);
      Kept(j, files).value.done
    else {}
  }

  lemma KeptBounds(j: Job, files: Dir)
    requires JobOk(j) && Kept(j, files).Some?
    ensures var r := Kept(j, files).value;
      && (forall b | b in r.done :: b < Count(j)) && 1 <= |r.done| < Count(j)
      && PartPath(j.meta.name) in files && files[PartPath(j.meta.name)].Plain?
      && |files[PartPath(j.meta.name)].bytes| <= |j.src|
  {
    hide JobOk, Count, Packet, Sane, Probe, PartPath;
    CountPositive(j);
    PacketFields(j, 0, 0);
    ProbeBounds(files, Packet(j, 0, 0));
  }

  /** A partial kept for this content is a true one: its bytes are the file's on the blocks its state
      names, and the recorded length is theirs. Without a partial, no stale state is in the way. */
  ghost predicate TrueKept(j: Job, files: Dir)
    requires JobOk(j)
  {
    match Kept(j, files)
    case None => NoRival(j, files)
    case Some(r) =>
      KeptBounds(j, files);
      Faithful(j, Content(files, PartPath(j.meta.name)), r.done) && r.written == Sum(Lengths(j, r.done))
  }

  /** The catcher can open the transfer: a free slot, quota, and a directory that takes new files. */
  ghost predicate CanOpen(j: Job, s: Sys, io: Io)
    requires JobOk(j)
  {
    && j.meta.transferID !in s.asm.active && j.meta.transferID !in s.asm.done
    && |s.asm.active| < MAX_TRANSFERS
    && io.stored.Some? && io.stored.value + s.asm.activeSize + j.meta.fileSize <= QUOTA && io.mkdir
    && var rnd := if Kept(j, s.disk.files).Some? then io.adoptTemp else io.freshTemp;
      && rnd.Some? && Digits(rnd.value) && TempPath(j.meta.name, rnd.value) !in s.disk.files
      && (Kept(j, s.disk.files).Some? ==> io.adoptClose && io.adoptRename && io.adoptOpen)
  }

  lemma NothingSeen(j: Job, held: set<nat>)
    requires JobOk(j) && forall b | b in held :: b < Count(j)
    ensures InJob(j, {}) && Whole(j, held, {}) == held && Partial(j, held, {}) == {}
  {
    forall b: nat ensures Got({}, b) == {} {
    }
  }

  lemma OpenedHolds(j: Job, held: set<nat>, t: Transfer, files: Dir)
    requires JobOk(j) && forall b | b in held :: b < Count(j)
    requires t.id == j.meta.transferID && t.name == j.meta.name && t.fileSize == |j.src|
    requires t.sha256 == j.meta.sha256 && t.blockCount == Count(j)
    requires t.blocksDone == held && t.blocks == map[]
    requires t.written == Sum(Lengths(j, held)) && Faithful(j, Content(files, t.tmp), held)
    ensures InJob(j, {}) && Holds(j, held, {}, t, files)
  {
    hide JobOk, Count, Faithful, Lengths, Whole, Partial, InJob;
    NothingSeen(j, held);
  }

  /** What opening the file leaves in the directory. */
  lemma OpenedFile(j: Job, s: Sys, io: Io)
    requires JobOk(j) && CanOpen(j, s, io) && TrueKept(j, s.disk.files) && TempsOk(s.asm.active, s.disk.files)
    ensures var resuming := Kept(j, s.disk.files).Some?;
      var (d, file) := OpenFile(s.disk, j.meta.name, resuming, io);
      && file.Some? && file.value.adopted == resuming && IsTemp(file.value.path)
      && Content(d.files, file.value.path) ==
           (if resuming then Content(s.disk.files, PartPath(j.meta.name)) else [])
      && NoRival(j, d.files)
  {
    hide JobOk, Count, IsTemp, StatePath, PartPath, Kept, Faithful, Lengths, Describes, Digits;
    var name := j.meta.name;
    var resuming := Kept(j, s.disk.files).Some?;
    OpenFileKeeps(s.asm.active, s.disk, name, resuming, io);
    if resuming {
      KeptBounds(j, s.disk.files);
      AdoptSucceeds(s.disk, name, io);
    } else {
      TempIsTemp(name, io.freshTemp.value);
      NamesApart(TempPath(name, io.freshTemp.value), name, name);
    }
  }

  lemma AdoptSucceeds(d: Disk, name: Data, io: Io)
    requires io.adoptTemp.Some? && Digits(io.adoptTemp.value) && TempPath(name, io.adoptTemp.value) !in d.files
    requires io.adoptClose && io.adoptRename && io.adoptOpen && PartPath(name) in d.files && d.files[PartPath(name)].Plain?
    ensures var (e, path) := Adopt(d, name, io);
      path == Some(TempPath(name, io.adoptTemp.value)) && StatePath(name) !in e.files
  {
    hide StatePath, PartPath, TempPath, Digits, IsTemp;
    TempIsTemp(name, io.adoptTemp.value);
    NamesApart(TempPath(name, io.adoptTemp.value), name, name);
  }

  lemma Admitted(j: Job, s: Sys, b: nat, si: nat, io: Io)
    requires JobOk(j) && b < Count(j) && si < S.Total(j.pl) && CanOpen(j, s, io)
    ensures Admits(j.lib, s.asm, Packet(j, b, si), Kept(j, s.disk.files), io)
  {
    hide Count, Kept, Packet, Sane, CanOpen, Lawful, SizeLimit;
    PacketFields(j, b, si);
    CanOpenFacts(j, s, io);
  }

  lemma OpenedTransfer(j: Job, files: Dir, after: Dir, b: nat, si: nat, file: TempFile)
    requires JobOk(j) && b < Count(j) && si < S.Total(j.pl) && TrueKept(j, files)
    requires file.adopted == Kept(j, files).Some?
    requires Content(after, file.path) == if file.adopted then Content(files, PartPath(j.meta.name)) else []
    ensures var t := Machine.Opened(Packet(j, b, si), file, Kept(j, files));
      && InJob(j, {}) && Holds(j, HeldIn(j, files), {}, t, after)
      && t.buffered == 0 && t.id == j.meta.transferID
  {
    hide JobOk, Count, Kept, Packet, Sane, Faithful, Lengths, InJob, Holds, PartPath, Content, NoRival;
    PacketFields(j, b, si);
    var t := Machine.Opened(Packet(j, b, si), file, Kept(j, files));
    if Kept(j, files).None? {
      EmptyFaithful(j, Content(after, t.tmp));
    } else {
      KeptBounds(j, files);
    }
    OpenedHolds(j, HeldIn(j, files), t, after);
  }

  /** The first datagram of an attempt opens a transfer that holds exactly what an earlier attempt kept. */
  lemma OpenFlight(j: Job, s: Sys, b: nat, si: nat, io: Io)
    requires JobOk(j) && b < Count(j) && si < S.Total(j.pl) && Inv(s) && CanOpen(j, s, io) && TrueKept(j, s.disk.files)
    ensures var f := TransferFor(j.lib, s, Packet(j, b, si), io);
      && f.transfer.Some? && Registered(f.sys, f.transfer.value) && Inv(f.sys)
      && InJob(j, {}) && Holds(j, HeldIn(j, s.disk.files), {}, f.transfer.value, f.sys.disk.files)
      && f.sys.asm.buffered == s.asm.buffered && f.transfer.value.buffered == 0
      && NoRival(j, f.sys.disk.files) && f.transfer.value.id == j.meta.transferID
  {
    hide JobOk, Count, IsTemp, PartPath, Kept, Packet, Sane, OpenFile, CanOpen, NoRival, HeldIn, TrueKept,
      Probe, InJob, Holds, Admits, Content, Machine.Opened, Invariant.Inv, TempsOk, Announces;
    var p := Packet(j, b, si);
    PacketFields(j, b, si);
    SameProbe(j, s.disk.files, b, si);
    CanOpenFacts(j, s, io);
    Admitted(j, s, b, si, io);
    TransferForKeeps(j.lib, s, p, io);
    TempsOfInv(s);
    OpenedFile(j, s, io);
    var resume := Kept(j, s.disk.files);
    var (d, file) := OpenFile(s.disk, j.meta.name, resume.Some?, io);
    OpenedTransfer(j, s.disk.files, d.files, b, si, file.value);
    OpenedPath(p, file.value, resume);
  }

  lemma OpenedPath(p: Wire.Packet, file: TempFile, resume: Option<Resume>)
    requires Sane(p)
    ensures Machine.Opened(p, file, resume).tmp == file.path
  {
  }

  lemma TempsOfInv(s: Sys)
    requires Inv(s)
    ensures TempsOk(s.asm.active, s.disk.files)
  {
  }

  lemma EmptyFaithful(j: Job, bytes: Data)
    requires JobOk(j)
    ensures Faithful(j, bytes, {}) && Sum(Lengths(j, {})) == 0
  {
    hide JobOk, Count;
    assert Lengths(j, {}) == map[];
  }

  lemma CanOpenFacts(j: Job, s: Sys, io: Io)
    requires JobOk(j) && CanOpen(j, s, io)
    ensures j.meta.transferID !in s.asm.active && j.meta.transferID !in s.asm.done && |s.asm.active| < MAX_TRANSFERS
    ensures io.mkdir && io.stored.Some? && io.stored.value + s.asm.activeSize + j.meta.fileSize <= QUOTA
  {
    hide JobOk, Kept;
  }

  lemma HeldNotAll(j: Job, files: Dir)
    requires JobOk(j)
    ensures !Covered(j, HeldIn(j, files), {})
  {
    hide JobOk, Count, Kept;
    var held := HeldIn(j, files);
    NothingSeen(j, held);
    CountPositive(j);
    UptoSize(Count(j));
    if Kept(j, files).Some? {
      KeptBounds(j, files);
    } else {
      assert 0 in Upto(Count(j));
    }
  }

  /** Handling the first datagram of an attempt. */
  lemma OpeningStep(j: Job, s: Sys, b: nat, si: nat, now: int, io: Io)
    requires JobOk(j) && b < Count(j) && si < S.Total(j.pl) && Inv(s)
    requires CanOpen(j, s, io) && TrueKept(j, s.disk.files) && GoodIo(io)
    requires RoomFor(j, HeldIn(j, s.disk.files), {}, b, s.asm.buffered)
    ensures RingFits(s.asm) && InJob(j, {(b, si)})
    ensures After(j, HeldIn(j, s.disk.files), {(b, si)}, Handle(j.lib, s, Sent(j, b, si), now, io), s.asm.buffered)
  {
    hide JobOk, Count, Kept, Packet, Sane, CanOpen, NoRival, HeldIn, TrueKept, InJob, Holds, Inv, GoodIo, RoomFor, RingFits,
      TransferFor, Rest, After, Sent, Wire.Parse, Covered, Whole;
    RingFitsInv(s);
    var held := HeldIn(j, s.disk.files);
    var p := Packet(j, b, si);
    SentParse(j, b, si);
    PacketFields(j, b, si);
    CanOpenFacts(j, s, io);
    OpenFlight(j, s, b, si, io);
    HeldNotAll(j, s.disk.files);
    var f := TransferFor(j.lib, s, p, io);
    RingFitsInv(f.sys);
    var t1 := f.transfer.value.(lastSeen := now);
    TouchKeeps(f.sys, f.transfer.value, now);
    TouchHolds(j, held, {}, f.transfer.value, f.sys.disk.files, now);
    GotBounded(j, {}, b, si);
    WholeBounded(j, held, {});
    assert {} + {(b, si)} == {(b, si)};
    ShardProgress(j, held, {}, WithTransfer(f.sys, t1), t1, b, si, now, io, s.asm.buffered);
  }

  // ---- whole receptions ----

  /** What the catcher does during a reception: it receives a datagram of the transmission, or other
      bytes (a corrupted datagram, one of another protocol, or one of another transfer), or it sweeps.
      Loss, duplication and reordering are all sequences of these. */
  datatype Arrival =
    | Genuine(b: nat, si: nat, now: int, io: Io)
    | Other(bytes: Data, at: int, ioAt: Io)
    | Quiet(order: seq<Data>, listing: seq<Data>, when: int, ios: Data -> Io)

  /** Bytes that do not parse, or a datagram of another transfer and another file. */
  ghost predicate Elsewhere(j: Job, bytes: Data)
  {
    match Wire.Parse(j.lib.crc, bytes)
    case Rejected(_) => true
    case Accepted(p) => p.transferID != j.meta.transferID && p.name != j.meta.name
  }

  ghost predicate OfJob(j: Job, a: Arrival)
    requires JobOk(j)
  {
    match a
    case Genuine(b, si, now, io) => b < Count(j) && si < S.Total(j.pl) && GoodIo(io)
    case Other(bytes, at, io) => Elsewhere(j, bytes)
    case Quiet(order, listing, when, ios) => true
  }

  ghost function EventOf(j: Job, a: Arrival): Event
    requires JobOk(j) && OfJob(j, a)
  {
    match a
    case Genuine(b, si, now, io) => Full(Datagram(Sent(j, b, si), now, io))
    case Other(bytes, at, io) => Full(Datagram(bytes, at, io))
    case Quiet(order, listing, when, ios) => Full(Tick(order, listing, when, ios))
  }

  ghost function EventsOf(j: Job, arrivals: seq<Arrival>): seq<Event>
    requires JobOk(j) && forall a | a in arrivals :: OfJob(j, a)
    decreases |arrivals|
  {
    if arrivals == [] then [] else [EventOf(j, arrivals[0])] + EventsOf(j, arrivals[1..])
  }

  ghost function More(seen: Seen, a: Arrival): Seen
  {
    if a.Genuine? then seen + {(a.b, a.si)} else seen
  }

  ghost function SeenAfter(seen: Seen, arrivals: seq<Arrival>): Seen
    decreases |arrivals|
  {
    if arrivals == [] then seen else SeenAfter(More(seen, arrivals[0]), arrivals[1..])
  }

  /** The memory that the other transfers use. */
  function OthersBuffer(s: Sys, id: Data): int
  {
    s.asm.buffered - (if id in s.asm.active then s.asm.active[id].buffered else 0)
  }

  /** Nothing expires: the first datagram finds the catcher able to open the transfer, later ones find
      it active or remembered, and no sweep comes more than 90 seconds after the transfer's last
      datagram, nor, before the first, when its partial is old enough to be reaped. */
  ghost predicate SteadyAt(j: Job, seen: Seen, s: Sys, a: Arrival)
    requires JobOk(j) && OfJob(j, a)
  {
    var id := j.meta.transferID;
    match a
    case Genuine(b, si, now, io) => if seen == {} then CanOpen(j, s, io) else id in s.asm.active || id in s.asm.done
    case Other(bytes, at, io) => true
    case Quiet(order, listing, when, ios) =>
      if seen == {} then Kept(j, s.disk.files).Some? ==> Young(s.disk.files, j.meta.name, when)
      else id in s.asm.active ==> when - s.asm.active[id].lastSeen <= STALE_AFTER
  }

  /** A datagram that opens a block finds room for it, until every block is whole. */
  ghost predicate RoomAt(j: Job, held: set<nat>, seen: Seen, s: Sys, a: Arrival)
    requires JobOk(j) && OfJob(j, a)
  {
    hide JobOk, Count, Covered, RoomFor, GoodIo;
    a.Genuine? ==> Covered(j, held, seen) || RoomFor(j, held, seen, a.b, OthersBuffer(s, j.meta.transferID))
  }

  /** All along, nothing expires and the open blocks stay within the count and byte budgets. */
  ghost predicate Smooth(j: Job, held: set<nat>, seen: Seen, s: Sys, arrivals: seq<Arrival>)
    requires JobOk(j) && Inv(s) && forall a | a in arrivals :: OfJob(j, a)
    decreases |arrivals|
  {
    arrivals != [] ==>
      && SteadyAt(j, seen, s, arrivals[0]) && RoomAt(j, held, seen, s, arrivals[0])
      && var e := EventOf(j, arrivals[0]);
        hide *;
        StepKeeps(j.lib, s, e);
        Smooth(j, held, More(seen, arrivals[0]), Step(j.lib, s, e), arrivals[1..])
  }

  /** The machine after some arrivals: before the first datagram the directory keeps what it kept;
      afterwards the transfer is as far as the shards seen, or the file has landed. */
  ghost predicate Phase(j: Job, held: set<nat>, seen: Seen, s: Sys)
    requires JobOk(j) && InJob(j, seen) && forall b | b in held :: b < Count(j)
  {
    if seen == {} then Waiting(j, held, s) else After(j, held, seen, s, OthersBuffer(s, j.meta.transferID))
  }

  ghost predicate Waiting(j: Job, held: set<nat>, s: Sys)
    requires JobOk(j)
  {
    j.meta.transferID !in s.asm.active && TrueKept(j, s.disk.files) && HeldIn(j, s.disk.files) == held
  }

  // ---- other traffic and sweeps ----

  lemma NameIsFinal(j: Job)
    requires JobOk(j)
    ensures IsFinal(j.meta.name)
  {
    hide SizeLimit;
  }

  /** What the directory keeps of the file depends on two names only. */
  lemma KeptSame(j: Job, f: Dir, g: Dir)
    requires JobOk(j) && SameAt(f, g, StatePath(j.meta.name)) && SameAt(f, g, PartPath(j.meta.name))
    ensures Kept(j, g) == Kept(j, f) && (NoRival(j, g) <==> NoRival(j, f))
    ensures Content(g, PartPath(j.meta.name)) == Content(f, PartPath(j.meta.name))
  {
    hide JobOk, Count, Packet, Sane, DecodedSet, StatePath, PartPath, Describes;
    CountPositive(j);
    PacketFields(j, 0, 0);
  }

  lemma HeldSame(j: Job, f: Dir, g: Dir)
    requires JobOk(j) && SameAt(f, g, StatePath(j.meta.name)) && SameAt(f, g, PartPath(j.meta.name))
    ensures HeldIn(j, g) == HeldIn(j, f) && (TrueKept(j, f) <==> TrueKept(j, g))
  {
    hide JobOk, Count, Kept, StatePath, PartPath, NoRival, Faithful, Lengths, Content, SameAt;
    KeptSame(j, f, g);
    if Kept(j, f).Some? {
      KeptBounds(j, f);
      KeptBounds(j, g);
    }
  }

  lemma WaitingUntouched(j: Job, held: set<nat>, s: Sys, r: Sys)
    requires JobOk(j) && Waiting(j, held, s) && Untouched(s, r, j.meta.transferID, j.meta.name)
    ensures Waiting(j, held, r)
  {
    hide JobOk, TrueKept, HeldIn, StatePath, PartPath;
    HeldSame(j, s.disk.files, r.disk.files);
  }

  lemma RivalGone(j: Job, f: Dir, g: Dir)
    requires JobOk(j) && NoRival(j, f) && SameOrGone(f, g, StatePath(j.meta.name))
    ensures NoRival(j, g)
  {
    hide JobOk, Count, StatePath;
  }

  /** A transfer under way, or a landed file, is not affected by what spares it. */
  lemma AfterSpared(j: Job, held: set<nat>, seen: Seen, s: Sys, r: Sys)
    requires JobOk(j) && InJob(j, seen) && (forall b | b in held :: b < Count(j))
    requires After(j, held, seen, s, OthersBuffer(s, j.meta.transferID)) && Spared(s, r, j.meta.transferID, j.meta.name)
    requires SameOrGone(s.disk.files, r.disk.files, StatePath(j.meta.name))
    ensures After(j, held, seen, r, OthersBuffer(r, j.meta.transferID))
  {
    hide JobOk, Count, InJob, Covered, NoRival, Whole, Faithful, Lengths, HoldsBlocks, StatePath;
    if !Covered(j, held, seen) {
      RivalGone(j, s.disk.files, r.disk.files);
    }
  }

  lemma NoRivalNothingKept(j: Job, files: Dir)
    requires JobOk(j) && NoRival(j, files)
    ensures Kept(j, files).None? && TrueKept(j, files) && HeldIn(j, files) == {}
  {
    hide JobOk, Kept, NoRival;
    NoRivalNotKept(j, files);
  }

  lemma NoRivalNotKept(j: Job, files: Dir)
    requires JobOk(j) && NoRival(j, files)
    ensures Kept(j, files).None?
  {
    hide JobOk, Count, Packet, Sane, DecodedSet, StatePath, PartPath;
    CountPositive(j);
    MetaSize(j);
    PacketFields(j, 0, 0);
  }

  lemma MetaSize(j: Job)
    requires JobOk(j)
    ensures j.meta.fileSize == |j.src|
  {
  }

  /** A sweep before the first datagram. */
  lemma WaitingSweep(j: Job, held: set<nat>, s: Sys, order: seq<Data>, listing: seq<Data>, when: int, ios: Data -> Io)
    requires JobOk(j) && Inv(s) && Waiting(j, held, s) && Sole(s, j.meta.transferID, j.meta.name)
    requires Kept(j, s.disk.files).Some? ==> Young(s.disk.files, j.meta.name, when)
    ensures Waiting(j, held, Sweep(s, order, listing, when, ios))
  {
    hide JobOk, Inv, Sweep, Young, TrueKept, HeldIn, Kept, NoRival, Untouched, SameOrGone, StatePath, PartPath;
    var id, name, r := j.meta.transferID, j.meta.name, Sweep(s, order, listing, when, ios);
    NameIsFinal(j);
    if Kept(j, s.disk.files).Some? {
      SweepUntouched(s, order, listing, when, ios, id, name);
      WaitingUntouched(j, held, s, r);
    } else {
      SweepSpares(s, order, listing, when, ios, id, name);
      NotKeptNoRival(j, s.disk.files);
      NoRivalNothingKept(j, s.disk.files);
      RivalGone(j, s.disk.files, r.disk.files);
      NoRivalNothingKept(j, r.disk.files);
    }
  }

  lemma NotKeptNoRival(j: Job, files: Dir)
    requires JobOk(j) && TrueKept(j, files) && Kept(j, files).None?
    ensures NoRival(j, files)
  {
    hide JobOk, Kept, NoRival;
  }

  lemma NoiseStep(j: Job, s: Sys, bytes: Data, at: int, io: Io)
    requires Wire.Parse(j.lib.crc, bytes).Rejected? && RingFits(s.asm)
    ensures Handle(j.lib, s, bytes, at, io) == s
  {
    hide Wire.Parse, RingFits;
  }

  lemma OtherStep(j: Job, s: Sys, bytes: Data, at: int, io: Io)
    requires JobOk(j) && Inv(s) && Elsewhere(j, bytes) && Sole(s, j.meta.transferID, j.meta.name)
    ensures RingFits(s.asm) && Untouched(s, Handle(j.lib, s, bytes, at, io), j.meta.transferID, j.meta.name)
  {
    hide JobOk, Inv, Wire.Parse, Receive, RingFits, Untouched, Sole, Sane, SizeLimit;
    RingFitsInv(s);
    NameIsFinal(j);
    match Wire.Parse(j.lib.crc, bytes)
    case Rejected(_) =>
      NoiseStep(j, s, bytes, at, io);
      UntouchedSelf(s, j.meta.transferID, j.meta.name);
    case Accepted(p) =>
      ParsedIsSane(j.lib.crc, bytes);
      OtherUntouched(j.lib, s, p, at, io, j.meta.transferID, j.meta.name);
  }

  /** A datagram of the job leaves the other transfers as they are. */
  lemma GenuineBeside(j: Job, s: Sys, b: nat, si: nat, now: int, io: Io)
    requires JobOk(j) && b < Count(j) && si < S.Total(j.pl) && Inv(s) && Sole(s, j.meta.transferID, j.meta.name)
    ensures RingFits(s.asm) && Sole(Handle(j.lib, s, Sent(j, b, si), now, io), j.meta.transferID, j.meta.name)
  {
    hide JobOk, Count, Inv, Packet, Sane, Sent, Wire.Parse, Receive, RingFits, Touches, Own, Grown;
    RingFitsInv(s);
    SentParse(j, b, si);
    PacketFields(j, b, si);
    var names := ReceiveBeside(j.lib, s, Packet(j, b, si), now, io);
  }

  // ---- one arrival ----

  lemma CoveredStays(j: Job, held: set<nat>, seen: Seen, b: nat, si: nat)
    requires JobOk(j) && InJob(j, seen) && b < Count(j) && si < S.Total(j.pl) && Covered(j, held, seen)
    ensures InJob(j, seen + {(b, si)}) && Covered(j, held, seen + {(b, si)})
  {
    hide JobOk, Count;
    GotBounded(j, seen, b, si);
    assert b in Upto(Count(j));
    LateShard(j, held, seen, b, si);
  }

  lemma OwnRest(j: Job, held: set<nat>, seen: Seen, s: Sys, rest: int)
    requires JobOk(j) && InJob(j, seen) && (forall b | b in held :: b < Count(j)) && After(j, held, seen, s, rest)
    ensures After(j, held, seen, s, OthersBuffer(s, j.meta.transferID))
  {
    hide JobOk, Count, InJob, Covered, NoRival, Holds, Delivered;
  }

  /** A datagram of the job after the first. */
  lemma LaterGenuine(j: Job, held: set<nat>, seen: Seen, s: Sys, b: nat, si: nat, now: int, io: Io)
    requires JobOk(j) && InJob(j, seen) && (forall x | x in held :: x < Count(j)) && Inv(s)
    requires b < Count(j) && si < S.Total(j.pl) && GoodIo(io)
    requires After(j, held, seen, s, OthersBuffer(s, j.meta.transferID))
    requires j.meta.transferID in s.asm.active || j.meta.transferID in s.asm.done
    requires Covered(j, held, seen) || RoomFor(j, held, seen, b, OthersBuffer(s, j.meta.transferID))
    ensures RingFits(s.asm) && InJob(j, seen + {(b, si)})
    ensures var r := Handle(j.lib, s, Sent(j, b, si), now, io);
      After(j, held, seen + {(b, si)}, r, OthersBuffer(r, j.meta.transferID))
  {
    hide JobOk, Count, InJob, Inv, RingFits, Handle, Sent, GoodIo, Covered, RoomFor, InFlight, Wire.Parse, OthersBuffer;
    RingFitsInv(s);
    GotBounded(j, seen, b, si);
    var rest := OthersBuffer(s, j.meta.transferID);
    if Covered(j, held, seen) {
      DeliveredStep(j, s, b, si, now, io);
      CoveredStays(j, held, seen, b, si);
    } else {
      FlightStep(j, held, seen, s, b, si, now, io, rest);
      OwnRest(j, held, seen + {(b, si)}, Handle(j.lib, s, Sent(j, b, si), now, io), rest);
    }
  }

  /** The first datagram. */
  lemma FirstGenuine(j: Job, held: set<nat>, s: Sys, b: nat, si: nat, now: int, io: Io)
    requires JobOk(j) && Inv(s) && Waiting(j, held, s) && CanOpen(j, s, io)
    requires b < Count(j) && si < S.Total(j.pl) && GoodIo(io) && RoomFor(j, held, {}, b, OthersBuffer(s, j.meta.transferID))
    ensures RingFits(s.asm) && InJob(j, {(b, si)}) && forall x | x in held :: x < Count(j)
    ensures var r := Handle(j.lib, s, Sent(j, b, si), now, io);
      After(j, held, {(b, si)}, r, OthersBuffer(r, j.meta.transferID))
  {
    hide JobOk, Count, InJob, Inv, RingFits, After, RoomFor, TrueKept, CanOpen, Sent, Handle, GoodIo;
    OpeningStep(j, s, b, si, now, io);
    OwnRest(j, held, {(b, si)}, Handle(j.lib, s, Sent(j, b, si), now, io), s.asm.buffered);
  }

  lemma WaitingBounds(j: Job, held: set<nat>, s: Sys)
    requires JobOk(j) && Waiting(j, held, s)
    ensures (forall b | b in held :: b < Count(j)) && InJob(j, {}) && !Covered(j, held, {})
  {
    hide JobOk, Count, TrueKept, Covered;
    HeldNotAll(j, s.disk.files);
    NothingSeen(j, held);
  }

  lemma StillSeen(seen: Seen, a: Arrival)
    ensures a.Genuine? ==> More(seen, a) != {} && (seen == {} ==> More(seen, a) == {(a.b, a.si)})
    ensures !a.Genuine? ==> More(seen, a) == seen
  {
    if a.Genuine? {
      assert (a.b, a.si) in More(seen, a);
    }
  }

  /** Each arrival leads to the phase of the shards then seen. */
  lemma PhaseStep(j: Job, held: set<nat>, seen: Seen, s: Sys, a: Arrival)
    requires JobOk(j) && Inv(s) && InJob(j, seen) && OfJob(j, a) && (forall b | b in held :: b < Count(j))
    requires Phase(j, held, seen, s) && Sole(s, j.meta.transferID, j.meta.name)
    requires SteadyAt(j, seen, s, a) && RoomAt(j, held, seen, s, a)
    ensures RingFits(s.asm) && InJob(j, More(seen, a))
    ensures var r := Step(j.lib, s, EventOf(j, a));
      Phase(j, held, More(seen, a), r) && Sole(r, j.meta.transferID, j.meta.name)
  {
    hide JobOk, Count, InJob, Inv, RingFits, Handle, Sweep, Sent, GoodIo, Covered, RoomFor, After, Waiting, More, Elsewhere,
      CanOpen, Kept, Young, Sole, OthersBuffer, Untouched, Spared, SameOrGone, StatePath, PartPath;
    RingFitsInv(s);
    StillSeen(seen, a);
    var id, name := j.meta.transferID, j.meta.name;
    NameIsFinal(j);
    match a {
      case Genuine(b, si, now, io) =>
        GotBounded(j, seen, b, si);
        assert More(seen, a) == seen + {(b, si)} by { hide *; GenuineMore(seen, a); }
        GenuineBeside(j, s, b, si, now, io);
        if seen == {} {
          WaitingBounds(j, held, s);
          FirstGenuine(j, held, s, b, si, now, io);
        } else {
          LaterGenuine(j, held, seen, s, b, si, now, io);
        }
      case Other(bytes, at, io) =>
        OtherStep(j, s, bytes, at, io);
        var r := Handle(j.lib, s, bytes, at, io);
        UntouchedParts(s, r, id, name);
        if seen == {} {
          WaitingUntouched(j, held, s, r);
        } else {
          AfterSpared(j, held, seen, s, r);
        }
      case Quiet(order, listing, when, ios) =>
        WaitingIdle(j, held, s);
        SweepSpares(s, order, listing, when, ios, id, name);
        SparedSole(s, Sweep(s, order, listing, when, ios), id, name);
        if seen == {} {
          WaitingSweep(j, held, s, order, listing, when, ios);
        } else {
          AfterSpared(j, held, seen, s, Sweep(s, order, listing, when, ios));
        }
    }
  }

  lemma GenuineMore(seen: Seen, a: Arrival)
    ensures a.Genuine? ==> More(seen, a) == seen + {(a.b, a.si)}
  {
  }

  lemma WaitingIdle(j: Job, held: set<nat>, s: Sys)
    requires JobOk(j)
    ensures Waiting(j, held, s) ==> j.meta.transferID !in s.asm.active
  {
    hide JobOk, TrueKept, HeldIn;
  }

  lemma UntouchedParts(s: Sys, r: Sys, id: Data, name: Data)
    requires Untouched(s, r, id, name)
    ensures Spared(s, r, id, name) && SameOrGone(s.disk.files, r.disk.files, StatePath(name)) && Sole(r, id, name)
  {
    hide StatePath, PartPath;
  }

  lemma SparedSole(s: Sys, r: Sys, id: Data, name: Data)
    requires Spared(s, r, id, name)
    ensures Sole(r, id, name)
  {
    hide SameAt;
  }

  lemma {:induction false} PhaseRun(j: Job, held: set<nat>, seen: Seen, s: Sys, arrivals: seq<Arrival>)
    requires JobOk(j) && Inv(s) && InJob(j, seen) && (forall a | a in arrivals :: OfJob(j, a)) && (forall b | b in held :: b < Count(j))
    requires Phase(j, held, seen, s) && Sole(s, j.meta.transferID, j.meta.name) && Smooth(j, held, seen, s, arrivals)
    ensures InJob(j, SeenAfter(seen, arrivals))
    ensures var r := Run(j.lib, s, EventsOf(j, arrivals));
      Phase(j, held, SeenAfter(seen, arrivals), r) && Sole(r, j.meta.transferID, j.meta.name)
    decreases |arrivals|
  {
    hide JobOk, Count, InJob, Inv, RingFits, Step, Phase, OfJob, EventOf, More, Sole, SteadyAt, RoomAt;
    if arrivals != [] {
      var e := EventOf(j, arrivals[0]);
      PhaseStep(j, held, seen, s, arrivals[0]);
      StepKeeps(j.lib, s, e);
      assert EventsOf(j, arrivals)[1..] == EventsOf(j, arrivals[1..]);
      PhaseRun(j, held, More(seen, arrivals[0]), Step(j.lib, s, e), arrivals[1..]);
    }
  }

  /** End-to-end delivery. A catcher in any consistent state, whose directory holds at most a true
      partial of the file, receives datagrams of one transmission in any order, with any losses and
      duplicates, mixed with bytes that do not parse, with the datagrams of other transfers, and with
      sweeps, which may expire those. While nothing of this transmission expires and the open blocks
      stay within the count and byte budgets, nothing else decides the outcome than the set of distinct
      shards received: once every block is whole (held from an earlier attempt, or with dataShards
      distinct shards) the landing directory holds the sender's file, byte for byte, and goes on to;
      until then the transfer is under way with exactly those blocks done and exactly the others'
      shards in memory. */
  lemma EndToEndDelivery(j: Job, s: Sys, arrivals: seq<Arrival>)
    requires JobOk(j) && Inv(s) && TrueKept(j, s.disk.files)
    requires j.meta.transferID !in s.asm.active && Sole(s, j.meta.transferID, j.meta.name)
    requires (forall a | a in arrivals :: OfJob(j, a)) && Smooth(j, HeldIn(j, s.disk.files), {}, s, arrivals)
    ensures var seen, held, r := SeenAfter({}, arrivals), HeldIn(j, s.disk.files), Run(j.lib, s, EventsOf(j, arrivals));
      && InJob(j, seen)
      && (Covered(j, held, seen) ==> j.meta.name in r.disk.files && r.disk.files[j.meta.name] == Plain(j.src))
      && (seen != {} ==> After(j, held, seen, r, OthersBuffer(r, j.meta.transferID)))
      && (seen == {} ==> Waiting(j, held, r)) && Sole(r, j.meta.transferID, j.meta.name)
  {
    hide JobOk, Count, InJob, Inv, TrueKept, HeldIn, InFlight, Smooth, Run, Covered, Sole, OthersBuffer;
    var held := HeldIn(j, s.disk.files);
    WaitingBounds(j, held, s);
    PhaseRun(j, held, {}, s, arrivals);
    if SeenAfter({}, arrivals) == {} {
      WaitingBounds(j, held, Run(j.lib, s, EventsOf(j, arrivals)));
    }
  }

  // ---- a channel that keeps the order ----

  /** The datagrams of the transmission arrive in block order, from a block on. */
  ghost predicate InBlockOrder(arrivals: seq<Arrival>, from: nat)
    decreases |arrivals|
  {
    arrivals != [] ==>
      if arrivals[0].Genuine? then from <= arrivals[0].b && InBlockOrder(arrivals[1..], arrivals[0].b)
      else InBlockOrder(arrivals[1..], from)
  }

  /** Every block gets enough distinct shards: at most parityShards of its datagrams are lost. */
  ghost predicate EnoughShards(j: Job, seen: Seen)
    requires JobOk(j)
  {
    forall b: nat | b < Count(j) :: |Got(seen, b)| >= j.pl.dataShards
  }

  lemma {:induction false} GotFixed(seen: Seen, arrivals: seq<Arrival>, from: nat, c: nat)
    requires InBlockOrder(arrivals, from) && c < from
    ensures Got(SeenAfter(seen, arrivals), c) == Got(seen, c)
    decreases |arrivals|
  {
    hide Got;
    if arrivals != [] {
      if arrivals[0].Genuine? {
        GotMore(seen, arrivals[0].b, arrivals[0].si, c);
        GotFixed(More(seen, arrivals[0]), arrivals[1..], arrivals[0].b, c);
      } else {
        GotFixed(seen, arrivals[1..], from, c);
      }
    }
  }

  lemma NothingPartial(j: Job, held: set<nat>, seen: Seen, b: nat)
    requires JobOk(j) && b < Count(j) && (forall x | x in seen :: x.0 <= b)
    requires forall c: nat | c < b :: |Got(seen, c)| >= j.pl.dataShards
    ensures Partial(j, held, seen) <= {b}
  {
    hide JobOk, Count;
    forall c: nat | c > b ensures |Got(seen, c)| == 0 {
      assert Got(seen, c) == {};
    }
  }

  lemma RoomInOrder(j: Job, held: set<nat>, seen: Seen, b: nat, rest: int)
    requires JobOk(j) && b < Count(j) && (forall x | x in seen :: x.0 <= b)
    requires forall c: nat | c < b :: |Got(seen, c)| >= j.pl.dataShards
    requires rest <= MAX_BUFFERED - MAX_BLOCK_BYTES
    ensures RoomFor(j, held, seen, b, rest)
  {
    hide JobOk, Count, Whole, Partial, Got;
    NothingPartial(j, held, seen, b);
    if b !in Partial(j, held, seen) {
      assert Partial(j, held, seen) == {};
      assert Reserves(j, {}) == map[];
      ReserveBound(j, b);
    }
  }

  lemma ReserveBound(j: Job, b: nat)
    requires JobOk(j) && b < Count(j)
    ensures Reserve(j, b) <= MAX_BLOCK_BYTES
  {
    hide Count, Lawful, SizeLimit;
    Wire.ShardsFit(S.Total(j.pl), Size(j, b));
  }

  /** All along, nothing expires and the other transfers leave room for one block. */
  ghost predicate Calm(j: Job, seen: Seen, s: Sys, arrivals: seq<Arrival>)
    requires JobOk(j) && Inv(s) && forall a | a in arrivals :: OfJob(j, a)
    decreases |arrivals|
  {
    arrivals != [] ==>
      && SteadyAt(j, seen, s, arrivals[0])
      && (arrivals[0].Genuine? ==> OthersBuffer(s, j.meta.transferID) <= MAX_BUFFERED - MAX_BLOCK_BYTES)
      && var e := EventOf(j, arrivals[0]);
        hide *;
        StepKeeps(j.lib, s, e);
        Calm(j, More(seen, arrivals[0]), Step(j.lib, s, e), arrivals[1..])
  }

  lemma {:induction false} OrderIsAffordable(j: Job, held: set<nat>, seen: Seen, s: Sys, arrivals: seq<Arrival>, from: nat)
    requires JobOk(j) && Inv(s) && (forall a | a in arrivals :: OfJob(j, a)) && InBlockOrder(arrivals, from)
    requires (forall x | x in seen :: x.0 <= from) && EnoughShards(j, SeenAfter(seen, arrivals)) && Calm(j, seen, s, arrivals)
    ensures Smooth(j, held, seen, s, arrivals)
    decreases |arrivals|
  {
    hide JobOk, Count, Got, RoomFor, Covered, GoodIo, Inv, Step, SteadyAt, OthersBuffer, RingFits, Elsewhere;
    if arrivals != [] {
      var e := EventOf(j, arrivals[0]);
      StepKeeps(j.lib, s, e);
      assert SeenAfter(seen, arrivals) == SeenAfter(More(seen, arrivals[0]), arrivals[1..]);
      if arrivals[0].Genuine? {
        var b, si := arrivals[0].b, arrivals[0].si;
        assert OfJob(j, arrivals[0]);
        assert from <= b && b < Count(j) && InBlockOrder(arrivals[1..], b);
        forall c: nat | c < b ensures |Got(seen, c)| >= j.pl.dataShards {
          GotMore(seen, b, si, c);
          GotFixed(More(seen, arrivals[0]), arrivals[1..], b, c);
        }
        RoomInOrder(j, held, seen, b, OthersBuffer(s, j.meta.transferID));
        OrderIsAffordable(j, held, More(seen, arrivals[0]), Step(j.lib, s, e), arrivals[1..], b);
      } else {
        OrderIsAffordable(j, held, seen, Step(j.lib, s, e), arrivals[1..], from);
      }
    }
  }

  lemma EnoughIsCovered(j: Job, held: set<nat>, seen: Seen)
    requires JobOk(j) && (forall b | b in held :: b < Count(j)) && EnoughShards(j, seen)
    ensures Covered(j, held, seen)
  {
    hide JobOk, Count, Got;
  }

  /** Forward error correction over an ordinary link. A transmission that arrives in block order, with
      any duplicates and with at most parityShards losses a block, among sweeps and the datagrams of
      other transfers, lands the sender's file; the budgets take care of themselves as long as the
      other transfers leave room for one block. */
  lemma LossyInOrderDelivery(j: Job, s: Sys, arrivals: seq<Arrival>)
    requires JobOk(j) && Inv(s) && TrueKept(j, s.disk.files)
    requires j.meta.transferID !in s.asm.active && Sole(s, j.meta.transferID, j.meta.name)
    requires (forall a | a in arrivals :: OfJob(j, a)) && InBlockOrder(arrivals, 0) && Calm(j, {}, s, arrivals)
    requires EnoughShards(j, SeenAfter({}, arrivals))
    ensures var files := Run(j.lib, s, EventsOf(j, arrivals)).disk.files;
      j.meta.name in files && files[j.meta.name] == Plain(j.src)
  {
    hide JobOk, Inv, TrueKept, HeldIn, OfJob, Smooth, Calm, Covered, EnoughShards, Run, Sole;
    var held := HeldIn(j, s.disk.files);
    OrderIsAffordable(j, held, {}, s, arrivals, 0);
    EnoughIsCovered(j, held, SeenAfter({}, arrivals));
    EndToEndDelivery(j, s, arrivals);
  }
}
