/** Recovery across re-sends: what an expired attempt leaves for the next one, the convergence of
    repeated attempts, and what a crash while persisting can break. */
module Resuming {
  import opened Bytes
  import opened Landing
  import opened MapSum
  import opened Machine
  import opened Invariant
  import opened Preserve
  import opened Delivery
  import opened Progress
  import opened Runs
  import opened Beside
  import opened EndToEnd
  import S = Sender
  import Bitset

  // ---- persisting progress ----

  /** The lengths of some of the blocks add up to at most the file size. */
  lemma {:induction false} LengthsBounded(j: Job, blocks: set<nat>, n: nat)
    requires JobOk(j) && n <= Count(j) && forall b | b in blocks :: b < n
    ensures Sum(Lengths(j, blocks)) <= Sum(Lengths(j, Upto(n)))
    ensures blocks != {} ==> Sum(Lengths(j, blocks)) >= 1
  {
    hide JobOk, Count, Len;
    if n == 0 {
      assert blocks == Upto(0);
    } else {
      var rest := blocks - {n - 1};
      LengthsBounded(j, rest, n - 1);
      LengthsInsert(j, Upto(n - 1), n - 1);
      if n - 1 in blocks {
        LengthsInsert(j, rest, n - 1);
        assert rest + {n - 1} == blocks;
      } else {
        assert rest == blocks;
      }
    }
  }

  /** The state file of a transfer describes it, and decodes to its done blocks. */
  lemma StateDescribes(j: Job, whole: set<nat>, t: Transfer)
    requires JobOk(j) && (forall b | b in whole :: b < Count(j)) && t.blocksDone == whole && t.blockCount == Count(j)
    requires t.name == j.meta.name && t.fileSize == |j.src| && t.sha256 == j.meta.sha256
    ensures Describes(StateOf(t), j.meta.name, j.meta.fileSize, j.meta.sha256, Count(j))
    ensures DecodedSet(StateOf(t).blocksDone, Count(j)) == Some(whole)
  {
    hide Count, Bitset.Members, Bitset.Decode, Bitset.Encode, Bitset.WordsOf;
    Bitset.SetRoundTrip(whole, Count(j));
  }

  ghost predicate FlightOf(j: Job, whole: set<nat>, t: Transfer, files: Dir)
  {
    && JobOk(j) && (forall b | b in whole :: b < Count(j)) && Carries(j, whole, t, files)
    && TempOk(t, files) && DoneOk(t) && t.doneCount < t.blockCount && NoRival(j, files)
  }

  /** What the directory holds of the file once an attempt is persisted. */
  ghost predicate KeepsExactly(j: Job, files: Dir, whole: set<nat>)
    requires JobOk(j)
  {
    TrueKept(j, files) && HeldIn(j, files) == whole
  }

  lemma PersistedFiles(j: Job, whole: set<nat>, d: Disk, t: Transfer, now: int, io: Io)
    requires FlightOf(j, whole, t, d.files) && whole != {} && GoodIo(io)
    ensures var e := Persist(d, t, now, io).files;
      && StatePath(j.meta.name) in e && e[StatePath(j.meta.name)] == Sidecar(Some(StateOf(t)), now)
      && PartPath(j.meta.name) in e && e[PartPath(j.meta.name)] == d.files[t.tmp]
  {
    hide JobOk, Count, Faithful, Lengths, StateOf, IsTemp, StatePath, PartPath, Describes;
    NamesApart(t.tmp, t.name, t.name);
    NotBetter(j, whole, t, d.files);
    CarriedFields(j, whole, t, d.files);
  }

  lemma CarriedFields(j: Job, whole: set<nat>, t: Transfer, files: Dir)
    requires JobOk(j) && (forall b | b in whole :: b < Count(j)) && Carries(j, whole, t, files)
    ensures t.name == j.meta.name && t.fileSize == |j.src| && t.sha256 == j.meta.sha256 && t.blockCount == Count(j)
    ensures t.blocksDone == whole && t.written == Sum(Lengths(j, whole)) && Faithful(j, Content(files, t.tmp), whole)
  {
    hide JobOk, Count, Faithful, Lengths;
  }

  lemma NotBetter(j: Job, whole: set<nat>, t: Transfer, files: Dir)
    requires JobOk(j) && (forall b | b in whole :: b < Count(j)) && Carries(j, whole, t, files) && NoRival(j, files)
    ensures !BetterExists(files, t)
  {
    hide Count, Faithful, Lengths, StatePath, PartPath;
  }

  /** A transfer's state and bytes, as the next attempt finds them. */
  lemma ProbedFromFiles(j: Job, whole: set<nat>, t: Transfer, files: Dir, bytes: Data, at: int)
    requires JobOk(j) && (forall b | b in whole :: b < Count(j)) && whole != {} && |whole| < Count(j)
    requires t.name == j.meta.name && t.fileSize == |j.src| && t.sha256 == j.meta.sha256 && t.blockCount == Count(j)
    requires t.blocksDone == whole && t.doneCount == |whole| && 1 <= t.written <= |j.src|
    requires StatePath(j.meta.name) in files && files[StatePath(j.meta.name)] == Sidecar(Some(StateOf(t)), at)
    requires PartPath(j.meta.name) in files && files[PartPath(j.meta.name)] == Plain(bytes) && |bytes| <= |j.src|
    ensures Kept(j, files) == Some(Resume(whole, t.written, |bytes|))
  {
    hide JobOk, Count, Packet, Sane, DecodedSet, StatePath, PartPath, Describes, Bitset.Encode, Bitset.WordsOf;
    CountPositive(j);
    MetaSize(j);
    PacketFields(j, 0, 0);
    StateDescribes(j, whole, t);
  }

  /** A directory with a transfer's state and bytes in place keeps exactly its done blocks. */
  lemma KeptFromFiles(j: Job, whole: set<nat>, t: Transfer, files: Dir, bytes: Data, at: int)
    requires JobOk(j) && (forall b | b in whole :: b < Count(j)) && whole != {} && |whole| < Count(j)
    requires t.name == j.meta.name && t.fileSize == |j.src| && t.sha256 == j.meta.sha256 && t.blockCount == Count(j)
    requires t.blocksDone == whole && t.doneCount == |whole| && t.written == Sum(Lengths(j, whole))
    requires StatePath(j.meta.name) in files && files[StatePath(j.meta.name)] == Sidecar(Some(StateOf(t)), at)
    requires PartPath(j.meta.name) in files && files[PartPath(j.meta.name)] == Plain(bytes)
    requires |bytes| <= |j.src| && Faithful(j, bytes, whole)
    ensures KeepsExactly(j, files, whole)
  {
    hide JobOk, Count, Kept, StatePath, PartPath, Lengths, Faithful, StateOf, NoRival;
    LengthsBounded(j, whole, Count(j));
    LengthsUpto(j, Count(j));
    ProbedFromFiles(j, whole, t, files, bytes, at);
  }

  /** Persisting an expired attempt keeps exactly its whole blocks for the next one, with their bytes. */
  lemma PersistKeepsProgress(j: Job, whole: set<nat>, d: Disk, t: Transfer, now: int, io: Io)
    requires FlightOf(j, whole, t, d.files) && GoodIo(io)
    ensures KeepsExactly(j, Persist(d, t, now, io).files, whole)
  {
    hide JobOk, Count, Packet, Sane, DecodedSet, StatePath, PartPath, Lengths, Faithful, Describes, Carries, IsTemp,
      StateOf, KeepsExactly, NoRival, GoodIo;
    CarriedFields(j, whole, t, d.files);
    var e := Persist(d, t, now, io);
    if whole == {} {
      assert e == Remove(d, t.tmp);
      RivalRemove(j, d, t.tmp);
      NoRivalNothingKept(j, e.files);
      KeepsWhatIsThere(j, e.files);
    } else {
      PersistedFiles(j, whole, d, t, now, io);
      KeptFromFiles(j, whole, t, e.files, d.files[t.tmp].bytes, now);
    }
  }

  lemma KeepsWhatIsThere(j: Job, files: Dir)
    requires JobOk(j) && TrueKept(j, files)
    ensures KeepsExactly(j, files, HeldIn(j, files))
  {
    hide JobOk, TrueKept, HeldIn;
  }

  lemma RivalRemove(j: Job, d: Disk, tmp: Data)
    requires JobOk(j) && NoRival(j, d.files)
    ensures NoRival(j, Remove(d, tmp).files)
  {
    hide JobOk, Count;
  }

  lemma ReapRival(j: Job, d: Disk, listing: seq<Data>, now: int)
    requires JobOk(j) && NoRival(j, d.files)
    ensures NoRival(j, Reap(d, listing, now).files)
  {
    hide JobOk, Count, StatePath, Reap;
    ReapTouches(d, listing, now);
  }

  // ---- the sweep that expires an attempt ----

  lemma FlightUntouched(j: Job, whole: set<nat>, s: Sys, r: Sys)
    requires j.meta.transferID in s.asm.active && Untouched(s, r, j.meta.transferID, j.meta.name)
    requires FlightOf(j, whole, s.asm.active[j.meta.transferID], s.disk.files)
    ensures j.meta.transferID in r.asm.active && r.asm.active[j.meta.transferID] == s.asm.active[j.meta.transferID]
    ensures FlightOf(j, whole, r.asm.active[j.meta.transferID], r.disk.files)
  {
    hide JobOk, Count, Faithful, Lengths, IsTemp, StatePath, PartPath, DoneOk;
    KeptSame(j, s.disk.files, r.disk.files);
  }

  /** A file's partial and its young state, or the absence of a rival state, survive a step that leaves
      their names alone. */
  lemma KeepsUntouched(j: Job, whole: set<nat>, s: Sys, r: Sys, now: int)
    requires JobOk(j) && KeepsExactly(j, s.disk.files, whole) && Untouched(s, r, j.meta.transferID, j.meta.name)
    ensures KeepsExactly(j, r.disk.files, whole)
    ensures Young(s.disk.files, j.meta.name, now) ==> Young(r.disk.files, j.meta.name, now)
  {
    hide JobOk, TrueKept, HeldIn, StatePath, PartPath;
    HeldSame(j, s.disk.files, r.disk.files);
  }

  lemma PersistYoung(j: Job, whole: set<nat>, d: Disk, t: Transfer, now: int, io: Io)
    requires FlightOf(j, whole, t, d.files) && GoodIo(io) && whole != {}
    ensures Young(Persist(d, t, now, io).files, j.meta.name, now)
  {
    hide FlightOf, Persist, GoodIo, StatePath, PartPath, StateOf;
    PersistedFiles(j, whole, d, t, now, io);
  }

  /** Its own turn in the loop persists the transfer; the turns of the others leave it alone. */
  lemma {:induction false} ExpireAllPersists(j: Job, whole: set<nat>, s: Sys, order: seq<Data>, now: int, ios: Data -> Io)
    requires Inv(s) && j.meta.transferID in s.asm.active && Sole(s, j.meta.transferID, j.meta.name)
    requires FlightOf(j, whole, s.asm.active[j.meta.transferID], s.disk.files)
    requires now - s.asm.active[j.meta.transferID].lastSeen > STALE_AFTER
    requires j.meta.transferID in order && GoodIo(ios(j.meta.transferID))
    ensures var r := ExpireAll(s, order, now, ios);
      && JobOk(j) && KeepsExactly(j, r.disk.files, whole) && (whole != {} ==> Young(r.disk.files, j.meta.name, now))
      && j.meta.transferID !in r.asm.active && Sole(r, j.meta.transferID, j.meta.name)
    decreases |order|
  {
    hide JobOk, Inv, FlightOf, KeepsExactly, Persist, GoodIo, Untouched, Young, SizeLimit, Sum, Reserved, StatePath, PartPath;
    var id, name := j.meta.transferID, j.meta.name;
    assert JobOk(j) by { FlightJob(j, whole, s.asm.active[id], s.disk.files); }
    NameIsFinal(j);
    var e := Expire(s, order[0], now, ios(order[0]));
    ExpireKeeps(s, order[0], now, ios(order[0]));
    if order[0] == id {
      var t := s.asm.active[id];
      ActiveId(s, id);
      PersistKeepsProgress(j, whole, s.disk, t, now, ios(id));
      if whole != {} {
        PersistYoung(j, whole, s.disk, t, now, ios(id));
      }
      var r := ExpireAll(e, order[1..], now, ios);
      ExpireAllUntouched(e, order[1..], now, ios, id, name);
      KeepsUntouched(j, whole, e, r, now);
      UntouchedIdle(e, r, id, name);
    } else {
      ExpireUntouchedOther(s, order[0], now, ios(order[0]), id, name);
      FlightUntouched(j, whole, s, e);
      UntouchedIdle(s, e, id, name);
      ExpireAllPersists(j, whole, e, order[1..], now, ios);
    }
  }

  lemma ExpireUntouchedOther(s: Sys, x: Data, now: int, io: Io, id: Data, name: Data)
    requires Inv(s) && Sole(s, id, name) && IsFinal(name) && x != id
    ensures Untouched(s, Expire(s, x, now, io), id, name)
  {
    hide Inv, SizeLimit;
    ExpireUntouched(s, x, now, io, id, name);
  }

  lemma UntouchedIdle(s: Sys, r: Sys, id: Data, name: Data)
    requires Untouched(s, r, id, name)
    ensures Sole(r, id, name) && (id !in s.asm.active ==> id !in r.asm.active)
  {
    hide SameAt;
  }

  lemma FlightJob(j: Job, whole: set<nat>, t: Transfer, files: Dir)
    requires FlightOf(j, whole, t, files)
    ensures JobOk(j)
  {
    hide JobOk;
  }

  /** Persisted progress survives the reaping of the same sweep. */
  lemma KeepsReaped(j: Job, whole: set<nat>, d: Disk, listing: seq<Data>, now: int)
    requires JobOk(j) && KeepsExactly(j, d.files, whole) && (whole != {} ==> Young(d.files, j.meta.name, now))
    ensures KeepsExactly(j, Reap(d, listing, now).files, whole)
  {
    hide JobOk, Kept, NoRival, Reap, Faithful, Lengths, StatePath, PartPath;
    var e := Reap(d, listing, now);
    if whole == {} {
      if Kept(j, d.files).Some? {
        KeptBounds(j, d.files);
      }
      ReapRival(j, d, listing, now);
      NoRivalNothingKept(j, e.files);
    } else {
      ReapKeeps(d, listing, now, j.meta.name);
      PartAfterReap(d, listing, now, j.meta.name);
      HeldSame(j, d.files, e.files);
    }
  }

  /** The sweep that expires an attempt keeps exactly its whole blocks, whatever else it expires. */
  lemma SweepPersists(j: Job, whole: set<nat>, s: Sys, order: seq<Data>, listing: seq<Data>, now: int, ios: Data -> Io)
    requires Inv(s) && j.meta.transferID in s.asm.active && Sole(s, j.meta.transferID, j.meta.name)
    requires FlightOf(j, whole, s.asm.active[j.meta.transferID], s.disk.files)
    requires now - s.asm.active[j.meta.transferID].lastSeen > STALE_AFTER
    requires j.meta.transferID in order && GoodIo(ios(j.meta.transferID))
    ensures var r := Sweep(s, order, listing, now, ios);
      && JobOk(j) && KeepsExactly(j, r.disk.files, whole) && NoneOf(r, j.meta.name)
  {
    hide JobOk, Inv, FlightOf, KeepsExactly, Reap, ExpireAll, Forget, GoodIo, Young;
    var s1 := ExpireAll(s, order, now, ios);
    ExpireAllPersists(j, whole, s, order, now, ios);
    KeepsReaped(j, whole, s1.disk, listing, now);
    ForgetActive(s1.asm, now);
  }

  /** No active transfer is of the file. */
  ghost predicate NoneOf(s: Sys, name: Data)
  {
    forall x | x in s.asm.active :: s.asm.active[x].name != name
  }

  // ---- rounds ----

  /** One attempt at sending the file: its transfer ID, what arrives meanwhile, and the sweep that
      expires it. */
  datatype Attempt = Attempt(
    id: Data, arrivals: seq<Arrival>, order: seq<Data>, listing: seq<Data>, at: int, ios: Data -> Io)

  function WithID(j: Job, id: Data): Job
  {
    j.(meta := j.meta.(transferID := id))
  }

  /** The attempt reaches the catcher: it can be opened, nothing of it expires during its arrivals, it
      stays within the budgets, and the sweep after them comes 90 seconds after its last datagram. */
  ghost predicate AttemptOk(j: Job, s: Sys, a: Attempt)
    requires Inv(s)
  {
    var k := WithID(j, a.id);
    && JobOk(k) && (forall x | x in a.arrivals :: OfJob(k, x)) && Smooth(k, HeldIn(k, s.disk.files), {}, s, a.arrivals)
    && SeenAfter({}, a.arrivals) != {} && a.id !in s.asm.active && a.id in a.order && GoodIo(a.ios(a.id))
    && var r := Run(j.lib, s, EventsOf(k, a.arrivals));
      a.id in r.asm.active ==> a.at - r.asm.active[a.id].lastSeen > STALE_AFTER
  }

  ghost function Received(j: Job, s: Sys, a: Attempt): Sys
    requires Inv(s) && AttemptOk(j, s, a)
  {
    Run(j.lib, s, EventsOf(WithID(j, a.id), a.arrivals))
  }

  /** The machine after an attempt and the sweep that follows it. */
  ghost function AfterAttempt(j: Job, s: Sys, a: Attempt): Sys
    requires Inv(s) && AttemptOk(j, s, a)
  {
    Sweep(Received(j, s, a), a.order, a.listing, a.at, a.ios)
  }

  /** Which transfer ID an attempt uses makes no difference to what is kept. */
  lemma SameKept(j: Job, k: Job, files: Dir, whole: set<nat>)
    requires JobOk(j) && JobOk(k) && k == WithID(j, k.meta.transferID)
    ensures Count(k) == Count(j) && Kept(k, files) == Kept(j, files) && HeldIn(k, files) == HeldIn(j, files)
    ensures KeepsExactly(k, files, whole) <==> KeepsExactly(j, files, whole)
  {
    hide JobOk, Packet, Sane, DecodedSet, StatePath, PartPath, Describes, S.BlockCount;
    CountPositive(j);
    PacketFields(j, 0, 0);
    PacketFields(k, 0, 0);
    assert Kept(k, files) == Kept(j, files);
    if Kept(j, files).Some? {
      KeptBounds(j, files);
      SameFaithful(j, k, Content(files, PartPath(j.meta.name)), Kept(j, files).value.done);
    }
  }

  lemma SameFaithful(j: Job, k: Job, bytes: Data, blocks: set<nat>)
    requires JobOk(j) && JobOk(k) && k.pl == j.pl && k.src == j.src && forall b | b in blocks :: b < Count(j)
    ensures Count(k) == Count(j)
    ensures (Faithful(k, bytes, blocks) <==> Faithful(j, bytes, blocks)) && Lengths(k, blocks) == Lengths(j, blocks)
  {
    hide JobOk, S.BlockCount, S.BlockLen, S.Offset;
    forall b | b in blocks ensures Len(k, b) == Len(j, b) && (FaithfulAt(k, bytes, b) <==> FaithfulAt(j, bytes, b)) {
    }
  }
}
