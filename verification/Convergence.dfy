/** Repeated attempts at the same file converge, and what a crash while persisting can break. */
module Convergence {
  import opened Bytes
  import opened Library
  import opened Landing
  import opened Machine
  import opened Invariant
  import opened Frames
  import opened Preserve
  import opened Delivery
  import opened Progress
  import opened Runs
  import opened Beside
  import opened EndToEnd
  import opened Resuming
  import S = Sender
  import Bitset
  import Wire

  /** The catcher between attempts: none at this file under way, exactly these blocks of it kept. */
  ghost predicate Between(j: Job, s: Sys, held: set<nat>)
  {
    JobOk(j) && Inv(s) && NoneOf(s, j.meta.name) && KeepsExactly(j, s.disk.files, held)
  }

  /** The blocks that are whole once an attempt has added its shards to those held before. */
  ghost function WholeAfter(j: Job, held: set<nat>, a: Attempt): set<nat>
    requires JobOk(j)
  {
    Whole(j, held, SeenAfter({}, a.arrivals))
  }

  lemma FlightFrom(j: Job, held: set<nat>, seen: Seen, s: Sys, rest: int)
    requires JobOk(j) && InJob(j, seen) && (forall b | b in held :: b < Count(j)) && Inv(s)
    requires InFlight(j, held, seen, s, rest)
    ensures FlightOf(j, Whole(j, held, seen), s.asm.active[j.meta.transferID], s.disk.files)
  {
    hide JobOk, Count, InJob, Faithful, Lengths, HoldsBlocks, NoRival, SizeOk, BlocksOk, BudgetOk, CountersOk, RingOk, IsTemp;
    WholeBounded(j, held, seen);
    assert TransferOk(s.asm.active[j.meta.transferID]);
  }

  lemma AttemptFacts(j: Job, s: Sys, held: set<nat>, a: Attempt)
    requires Between(j, s, held) && AttemptOk(j, s, a)
    ensures var k := WithID(j, a.id);
      && JobOk(k) && Count(k) == Count(j) && KeepsExactly(k, s.disk.files, held)
      && (forall b | b in held :: b < Count(k)) && Sole(s, a.id, k.meta.name)
      && WholeAfter(k, held, a) == WholeAfter(j, held, a)
  {
    hide JobOk, Kept, Smooth, OfJob, S.BlockCount;
    SameKept(j, WithID(j, a.id), s.disk.files, held);
  }

  /** One attempt, among other traffic and sweeps, and the sweep that expires it: either the file is
      delivered, or the blocks kept for the next attempt are exactly the whole ones. Progress is never
      lost between attempts. */
  lemma Round(j: Job, s: Sys, held: set<nat>, a: Attempt)
    requires Between(j, s, held) && AttemptOk(j, s, a)
    ensures var whole := WholeAfter(j, held, a);
      if whole == Upto(Count(j)) then
        var files := Received(j, s, a).disk.files;
        j.meta.name in files && files[j.meta.name] == Plain(j.src)
      else Between(j, AfterAttempt(j, s, a), whole)
  {
    hide JobOk, Count, Inv, Kept, Smooth, OfJob, TrueKept, HeldIn, InJob, Holds, NoRival, FlightOf, Sweep, Run, Whole, OthersBuffer;
    var k := WithID(j, a.id);
    AttemptFacts(j, s, held, a);
    EndToEndDelivery(k, s, a.arrivals);
    var r := Received(j, s, a);
    var seen := SeenAfter({}, a.arrivals);
    if WholeAfter(j, held, a) != Upto(Count(j)) {
      RoundSweep(j, k, held, seen, r, a);
    }
  }

  lemma RoundSweep(j: Job, k: Job, held: set<nat>, seen: Seen, r: Sys, a: Attempt)
    requires JobOk(j) && JobOk(k) && k == WithID(j, a.id) && Count(k) == Count(j) && InJob(k, seen)
    requires (forall b | b in held :: b < Count(k)) && Inv(r) && InFlight(k, held, seen, r, OthersBuffer(r, a.id))
    requires Whole(k, held, seen) == Whole(j, held, seen) && Sole(r, a.id, j.meta.name)
    requires a.at - r.asm.active[a.id].lastSeen > STALE_AFTER && a.id in a.order && GoodIo(a.ios(a.id))
    ensures Between(j, Sweep(r, a.order, a.listing, a.at, a.ios), Whole(j, held, seen))
  {
    hide JobOk, Count, Inv, Kept, InJob, Holds, NoRival, FlightOf, Sweep, Whole, GoodIo, KeepsExactly, Sole, OthersBuffer;
    var whole := Whole(j, held, seen);
    SweepKeeps(r, a.order, a.listing, a.at, a.ios);
    FlightFrom(k, held, seen, r, OthersBuffer(r, a.id));
    SweepPersists(k, whole, r, a.order, a.listing, a.at, a.ios);
    SameKept(j, k, Sweep(r, a.order, a.listing, a.at, a.ios).disk.files, whole);
  }

  /** Attempts one after another, until one delivers the file. What happens between two of them, sweeps
      and other traffic, comes first among the arrivals of the later one. */
  ghost predicate AttemptsOk(j: Job, s: Sys, held: set<nat>, attempts: seq<Attempt>)
    requires Between(j, s, held)
    decreases |attempts|
  {
    attempts != [] ==>
      && AttemptOk(j, s, attempts[0])
      && var whole := WholeAfter(j, held, attempts[0]);
        if whole == Upto(Count(j)) then true
        else
          Round(j, s, held, attempts[0]);
          AttemptsOk(j, AfterAttempt(j, s, attempts[0]), whole, attempts[1..])
  }

  /** The machine after the attempts, or after the reception that delivered the file. */
  ghost function AfterAttempts(j: Job, s: Sys, held: set<nat>, attempts: seq<Attempt>): Sys
    requires Between(j, s, held) && AttemptsOk(j, s, held, attempts)
    decreases |attempts|
  {
    if attempts == [] then s
    else
      var whole := WholeAfter(j, held, attempts[0]);
      if whole == Upto(Count(j)) then Received(j, s, attempts[0])
      else
        Round(j, s, held, attempts[0]);
        AfterAttempts(j, AfterAttempt(j, s, attempts[0]), whole, attempts[1..])
  }

  /** All blocks that are whole in some attempt. */
  ghost function WholeInAll(j: Job, held: set<nat>, attempts: seq<Attempt>): set<nat>
    requires JobOk(j)
    decreases |attempts|
  {
    if attempts == [] then held else WholeInAll(j, WholeAfter(j, held, attempts[0]), attempts[1..])
  }

  lemma {:induction false} WholeGrows(j: Job, held: set<nat>, attempts: seq<Attempt>)
    requires JobOk(j) && forall b | b in held :: b < Count(j)
    ensures held <= WholeInAll(j, held, attempts)
    ensures forall b | b in WholeInAll(j, held, attempts) :: b < Count(j)
    decreases |attempts|
  {
    hide JobOk, Count, Got;
    if attempts != [] {
      WholeGrows(j, WholeAfter(j, held, attempts[0]), attempts[1..]);
    }
  }

  /** Resume convergence. Over any number of attempts, none of which needs to be complete, the blocks
      kept grow to exactly those that had enough shards in some attempt; as soon as these are all the
      blocks of the file, the landing directory holds it, byte for byte. */
  lemma {:induction false} Converges(j: Job, s: Sys, held: set<nat>, attempts: seq<Attempt>)
    requires Between(j, s, held) && AttemptsOk(j, s, held, attempts)
    requires (forall b | b in held :: b < Count(j)) && held != Upto(Count(j))
    ensures var r, whole := AfterAttempts(j, s, held, attempts), WholeInAll(j, held, attempts);
      if whole == Upto(Count(j)) then
        j.meta.name in r.disk.files && r.disk.files[j.meta.name] == Plain(j.src)
      else Between(j, r, whole)
    decreases |attempts|
  {
    hide JobOk, Count, AttemptOk, Between, Whole, Received, AfterAttempt;
    if attempts != [] {
      BetweenOk(j, s, held);
      var whole := WholeAfter(j, held, attempts[0]);
      Round(j, s, held, attempts[0]);
      WholeBounded(j, held, SeenAfter({}, attempts[0].arrivals));
      if whole == Upto(Count(j)) {
        WholeGrows(j, whole, attempts[1..]);
        assert WholeInAll(j, held, attempts) == Upto(Count(j));
      } else {
        Converges(j, AfterAttempt(j, s, attempts[0]), whole, attempts[1..]);
      }
    }
  }

  lemma BetweenOk(j: Job, s: Sys, held: set<nat>)
    requires Between(j, s, held)
    ensures JobOk(j) && Inv(s)
  {
  }

  // ---- a crash while progress is persisted ----

  /** The persisting of an expired transfer that will be kept: nothing fails, nothing better exists. */
  ghost predicate Persisting(d: Disk, t: Transfer, io: Io)
  {
    && DoneOk(t) && 0 < t.doneCount < t.blockCount && 1 <= t.written <= t.fileSize
    && TempOk(t, d.files) && !BetterExists(d.files, t) && GoodIo(io)
  }

  /** A packet of the same content. */
  ghost predicate SameContent(t: Transfer, p: Wire.Packet)
  {
    Sane(p) && p.name == t.name && p.fileSize == t.fileSize && p.sha256 == t.sha256 && p.blockCount == t.blockCount
  }

  /** A file that could pass for a partial of this size. */
  predicate Usable(files: Dir, name: Data, size: int)
  {
    PartPath(name) in files && files[PartPath(name)].Plain? && |files[PartPath(name)].bytes| <= size
  }

  lemma ProbeOfState(files: Dir, t: Transfer, p: Wire.Packet, now: int)
    requires SameContent(t, p) && DoneOk(t) && 0 < t.doneCount < t.blockCount && 1 <= t.written <= t.fileSize
    requires StatePath(t.name) in files && files[StatePath(t.name)] == Sidecar(Some(StateOf(t)), now)
    ensures Probe(files, p) ==
      if Usable(files, t.name, t.fileSize) then
        Some(Machine.Resume(t.blocksDone, t.written, |files[PartPath(t.name)].bytes|))
      else None
  {
    hide StatePath, PartPath, Bitset.Encode, Bitset.WordsOf, Bitset.Decode, Bitset.Members, Sane;
    Bitset.SetRoundTrip(t.blocksDone, t.blockCount);
  }

  /** Persisting takes two directory operations. A crash between them leaves the new state beside
      whatever file had the partial's name before. The code's comment promises that the next probe
      then fails cleanly; it does exactly when no usable file of an older partial was there. Before
      the first operation and after the second, state and bytes belong together. */
  lemma CrashWhilePersisting(d: Disk, t: Transfer, p: Wire.Packet, now: int, io: Io)
    requires Persisting(d, t, io) && SameContent(t, p)
    ensures var e := Persist(d, t, now, io);
      && |e.past| == |d.past| + 2 && d.past <= e.past && e.past[|d.past| + 1] == e.files
      && Probe(e.files, p) == Some(Machine.Resume(t.blocksDone, t.written, |d.files[t.tmp].bytes|))
      && e.files[PartPath(t.name)] == d.files[t.tmp]
    ensures var mid := Persist(d, t, now, io).past[|d.past|];
      && (Probe(mid, p).None? <==> !Usable(d.files, t.name, t.fileSize))
      && (Probe(mid, p).Some? ==>
            Probe(mid, p).value.done == t.blocksDone && mid[PartPath(t.name)] == d.files[PartPath(t.name)])
  {
    hide StatePath, PartPath, IsTemp, StateOf, BetterExists, Sane, Probe, DoneOk;
    NamesApart(t.tmp, t.name, t.name);
    var e := Persist(d, t, now, io);
    var mid := e.past[|d.past|];
    assert mid == d.files[StatePath(t.name) := Sidecar(Some(StateOf(t)), now)];
    ProbeOfState(mid, t, p, now);
    ProbeOfState(e.files, t, p, now);
  }

  /** A run in which that goes wrong: an older partial of the same name holds 9 where the expiring
      transfer of a two-byte file has written 7 in its first block. After the crash the next attempt
      finds the first block done, over the old byte. */
  lemma StaleStateAfterCrash(name: Data, tmp: Data, sha: Data, io: Io)
    requires 1 <= |name| <= 128 && IsTemp(tmp) && GoodIo(io)
    ensures var d := Disk(map[tmp := Plain([7]), PartPath(name) := Plain([9])], []);
      var t := Transfer(Zeros(16), name, 2, sha, 2, tmp, map[], {0}, 1, 1, 0, 0);
      var p := Wire.Packet(Zeros(16), sha, name, 2, 2, 0, 0, 1, 1, 1, 1, 0, [7]);
      var mid := Persist(d, t, 0, io).past[..1];
      && Persisting(d, t, io) && SameContent(t, p) && |mid| == 1
      && Probe(mid[0], p) == Some(Machine.Resume({0}, 1, 1)) && mid[0][PartPath(name)] == Plain([9])
  {
    hide StatePath, PartPath, IsTemp, StateOf, Probe;
    NamesApart(tmp, name, name);
    var d := Disk(map[tmp := Plain([7]), PartPath(name) := Plain([9])], []);
    var t := Transfer(Zeros(16), name, 2, sha, 2, tmp, map[], {0}, 1, 1, 0, 0);
    var p := Wire.Packet(Zeros(16), sha, name, 2, 2, 0, 0, 1, 1, 1, 1, 0, [7]);
    assert LoadState(d.files, StatePath(name)).None?;
    assert Persisting(d, t, io);
    CrashWhilePersisting(d, t, p, 0, io);
    ProbeOfState(Persist(d, t, 0, io).past[0], t, p, 0);
  }

  /** The gate behind all of this: a finished transfer lands its bytes, cut or extended to the
      announced size, exactly when its blocks add up to that size and the hash is the announced one.
      Otherwise its temporary file is gone and nothing else has changed. */
  lemma HashGate(lib: Lib, d: Disk, t: Transfer, io: Io)
    requires TempOk(t, d.files) && GoodIo(io) && SizeLimit(t.name).Some?
    ensures var e := Land(lib, d, t, io).files;
      var bytes := Resized(d.files[t.tmp].bytes, t.fileSize);
      if t.written == t.fileSize && lib.sha(bytes) == t.sha256 then
        t.name in e && e[t.name] == Plain(bytes) && t.tmp !in e
      else e == d.files - {t.tmp}
  {
    hide StatePath, PartPath, IsTemp, SizeLimit;
    NamesApart(t.tmp, t.name, t.name);
    FinalKept(t.name);
    assert !IsFinal(t.tmp) && IsFinal(t.name);
  }

  // ---- a failed adoption ----

  /** The partial and its state are as they were. */
  ghost predicate PartialStays(d: Disk, e: Disk, name: Data)
  {
    SameAt(d.files, e.files, PartPath(name)) && SameAt(d.files, e.files, StatePath(name))
  }

  /** The file cannot be opened again after it took its temporary name. */
  predicate ReopenFails(d: Disk, name: Data, io: Io)
  {
    CreateTemp(d, name, io.adoptTemp).Some? && io.adoptClose && io.adoptRename && !io.adoptOpen
  }

  /** The code's comment says that a failed adoption falls back to a fresh start and leaves the partial
      where it is. It does unless the failure is that of the last step. */
  lemma FailedAdoption(d: Disk, name: Data, io: Io)
    requires PartPath(name) in d.files && Adopt(d, name, io).1.None?
    ensures PartialStays(d, Adopt(d, name, io).0, name) <==> !ReopenFails(d, name, io)
    ensures ReopenFails(d, name, io) ==>
      PartPath(name) !in Adopt(d, name, io).0.files && StatePath(name) !in Adopt(d, name, io).0.files
  {
    hide PartPath, StatePath, TempPath, IsTemp, Digits;
    if CreateTemp(d, name, io.adoptTemp).Some? {
      TempIsTemp(name, io.adoptTemp.value);
      NamesApart(TempPath(name, io.adoptTemp.value), name, name);
    }
  }

  /** Then everything received so far is gone: a partial of one byte and the state beside it. */
  lemma PartialLost(name: Data, state: PartialState, io: Io)
    requires io.adoptTemp == Some([0x30]) && io.adoptClose && io.adoptRename && !io.adoptOpen
    ensures var d := Disk(map[PartPath(name) := Plain([7]), StatePath(name) := Sidecar(Some(state), 0)], []);
      Adopt(d, name, io).1.None? && Adopt(d, name, io).0.files == map[]
  {
    hide PartPath, StatePath, TempPath, IsTemp;
    TempIsTemp(name, [0x30]);
    NamesApart(TempPath(name, [0x30]), name, name);
  }
}
