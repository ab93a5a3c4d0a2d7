/** What the gates and the clocks of the receiver let through, in terms of the packet, the directory and
    the time alone. */
module Gates {
  import opened Bytes
  import opened Library
  import opened Landing
  import opened Machine
  import opened Invariant
  import opened Frames
  import opened Preserve
  import Bitset
  import Wire

  // ---- admission ----

  /** The largest a bundle's file may be: a signature 4 KiB, a manifest 64 MiB, an archive 64 GiB. */
  lemma LimitMeans(name: Data)
    ensures Ends(name, ".manifest.json.sig") ==> SizeLimit(name) == Some(4096)
    ensures Ends(name, ".manifest.json") ==> SizeLimit(name) == Some(67_108_864)
    ensures Ends(name, ".tar.gz") ==> SizeLimit(name) == Some(68_719_476_736)
    ensures SizeLimit(name).Some? ==> Ends(name, ".manifest.json.sig") || Ends(name, ".manifest.json") || Ends(name, ".tar.gz")
  {
    hide Ascii;
    LastBytes();
    assert SIG == Ascii(".manifest.json.sig") && MANIFEST == Ascii(".manifest.json") && ARCHIVE == Ascii(".tar.gz");
    EndsMeans(name, ".manifest.json.sig");
    EndsMeans(name, ".manifest.json");
    EndsMeans(name, ".tar.gz");
    if HasSuffix(name, SIG) {
      SuffixByte(name, SIG, 17);
    }
    if HasSuffix(name, MANIFEST) {
      SuffixByte(name, MANIFEST, 13);
    }
    if HasSuffix(name, ARCHIVE) {
      SuffixByte(name, ARCHIVE, 6);
    }
  }

  lemma EndsMeans(name: Data, text: string)
    ensures Ends(name, text) <==> HasSuffix(name, Ascii(text))
  {
    hide Ascii;
    if HasSuffix(name, Ascii(text)) {
      assert name == name[..|name| - |Ascii(text)|] + Ascii(text);
    }
    if Ends(name, text) {
      var base :| name == base + Ascii(text);
      assert name[|base|..] == Ascii(text);
    }
  }

  /** The private names of a file: ".udp-part", ".udp-part.json" and ".udp-" with digits after its own. */
  lemma NamesMean(name: Data, rnd: Data)
    ensures PartPath(name) == name + [0x2e, 0x75, 0x64, 0x70, 0x2d, 0x70, 0x61, 0x72, 0x74]
    ensures StatePath(name) == name + [0x2e, 0x75, 0x64, 0x70, 0x2d, 0x70, 0x61, 0x72, 0x74, 0x2e, 0x6a, 0x73, 0x6f, 0x6e]
    ensures TempPath(name, rnd) == name + [0x2e, 0x75, 0x64, 0x70, 0x2d] + rnd
    ensures Digits(rnd) <==> rnd != [] && forall c | c in rnd :: c in {0x30, 0x31, 0x32, 0x33, 0x34, 0x35, 0x36, 0x37, 0x38, 0x39}
  {
    assert PART == [0x2e, 0x75, 0x64, 0x70, 0x2d, 0x70, 0x61, 0x72, 0x74];
    assert STATE == [0x2e, 0x75, 0x64, 0x70, 0x2d, 0x70, 0x61, 0x72, 0x74, 0x2e, 0x6a, 0x73, 0x6f, 0x6e];
    assert TEMP == [0x2e, 0x75, 0x64, 0x70, 0x2d];
    if Digits(rnd) {
      forall c | c in rnd ensures 0x30 <= c <= 0x39 {
        var i :| 0 <= i < |rnd| && rnd[i] == c;
      }
    }
    if rnd != [] && forall c | c in rnd :: c in {0x30, 0x31, 0x32, 0x33, 0x34, 0x35, 0x36, 0x37, 0x38, 0x39} {
      assert forall i | 0 <= i < |rnd| :: rnd[i] in rnd;
    }
  }

  /** The name ends in some text. */
  ghost predicate Ends(name: Data, text: string) { exists base :: name == base + Ascii(text) }

  /** A transfer is admitted exactly if its name is valid and one of a bundle's files, its size is within the
      limit of such, fewer than 16 transfers are active, and the usage could be measured and fits: what is
      stored, less the partial about to be adopted, with the active transfers and the file itself, is at
      most 128 GiB. */
  lemma AdmitsMeans(lib: Lib, asm: Asm, p: Wire.Packet, resume: Option<Resume>, io: Io)
    requires Sane(p)
    ensures Admits(lib, asm, p, resume, io) <==>
      && lib.validName(p.name) && SizeLimit(p.name).Some? && p.fileSize <= SizeLimit(p.name).value
      && |asm.active| < 16 && io.stored.Some?
      && Credited(io.stored.value, resume) + asm.activeSize + p.fileSize <= 137_438_953_472
  {
  }

  /** The stored bytes that count against a transfer. */
  function Credited(stored: nat, resume: Option<Resume>): nat
  {
    if resume.None? then stored else if stored < resume.value.diskSize then 0 else stored - resume.value.diskSize
  }

  /** A file that did not fit beside its own partial is admitted to resume it. */
  lemma CreditAdmits(lib: Lib, asm: Asm, p: Wire.Packet, r: Resume, io: Io)
    requires Sane(p) && Admits(lib, asm, p, None, io.(stored := Some(0))) && io.stored.Some? && io.stored.value >= r.diskSize
    requires io.stored.value - r.diskSize + asm.activeSize + p.fileSize <= 137_438_953_472
    ensures Admits(lib, asm, p, Some(r), io)
  {
  }

  /** Progress is found exactly beside a readable state of this very file, with some but not all blocks done,
      as many as it says, a plausible byte count, and a partial that is no longer than the file. */
  lemma ProbeMeans(files: Dir, p: Wire.Packet)
    requires Sane(p)
    ensures Probe(files, p).Some? <==> exists st, done :: Resumable(files, p, st, done)
    ensures Probe(files, p).Some? ==> exists st :: Probed(files, p, st, Probe(files, p).value)
  {
    hide PartPath, StatePath, DecodedSet;
    if Probe(files, p).Some? {
      var st := files[StatePath(p.name)].state.value;
      assert Resumable(files, p, st, Probe(files, p).value.done) && Probed(files, p, st, Probe(files, p).value);
    }
  }

  /** Then it is what the state says, and the length of the partial. */
  ghost predicate Probed(files: Dir, p: Wire.Packet, st: PartialState, r: Resume)
    requires Sane(p)
  {
    Resumable(files, p, st, r.done) && r.written == st.written && r.diskSize == |files[PartPath(p.name)].bytes|
  }

  ghost predicate Resumable(files: Dir, p: Wire.Packet, st: PartialState, done: set<nat>)
    requires Sane(p)
  {
    var state, part := StatePath(p.name), PartPath(p.name);
    && state in files && files[state].Sidecar? && files[state].state == Some(st)
    && st.name == p.name && st.fileSize == p.fileSize && st.sha256 == p.sha256 && st.blockCount == p.blockCount
    && DecodedSet(st.blocksDone, p.blockCount) == Some(done) && |done| == st.doneCount && 1 <= |done| < p.blockCount
    && 1 <= st.written <= p.fileSize
    && part in files && files[part].Plain? && |files[part].bytes| <= p.fileSize
  }

  /** A datagram of an active transfer is its own only if it announces the same file; otherwise, and if the
      transfer is over, it changes nothing. */
  lemma StrangerIgnored(lib: Lib, s: Sys, p: Wire.Packet, now: int, io: Io)
    requires Sane(p) && RingFits(s.asm)
    requires p.transferID in s.asm.done || (p.transferID in s.asm.active && var t := s.asm.active[p.transferID];
      t.name != p.name || t.fileSize != p.fileSize || t.blockCount != p.blockCount || t.sha256 != p.sha256)
    ensures Receive(lib, s, p, now, io) == s
  {
  }

  /** What a transfer starts with: the bytes and the progress of an adopted partial, or, if there is none or it
      cannot be adopted, an empty file and no progress. */
  lemma OpensWith(s: Sys, p: Wire.Packet, resume: Option<Resume>, io: Io)
    requires Sane(p) && Open(s, p, resume, io).transfer.Some?
    ensures var t, files := Open(s, p, resume, io).transfer.value, Open(s, p, resume, io).sys.disk.files;
      && t.id == p.transferID && t.name == p.name && t.fileSize == p.fileSize && t.sha256 == p.sha256 && t.blockCount == p.blockCount
      && t.blocks == map[] && t.buffered == 0 && IsTemp(t.tmp)
      && (resume.Some? && Adopt(s.disk, p.name, io).1.Some? ==>
            && t.blocksDone == resume.value.done && t.doneCount == |resume.value.done| && t.written == resume.value.written
            && Adopt(s.disk, p.name, io).1 == Some(t.tmp) && files == Adopt(s.disk, p.name, io).0.files)
      && (resume.None? || Adopt(s.disk, p.name, io).1.None? ==>
            t.blocksDone == {} && t.doneCount == 0 && t.written == 0 && t.tmp in files && files[t.tmp] == Plain([]))
  {
    hide IsTemp, PartPath, StatePath;
    if io.adoptTemp.Some? && Digits(io.adoptTemp.value) {
      TempIsTemp(p.name, io.adoptTemp.value);
    }
    if io.freshTemp.Some? && Digits(io.freshTemp.value) {
      TempIsTemp(p.name, io.freshTemp.value);
    }
  }

  /** Adopting a partial moves its bytes under a fresh temporary name and removes its state. */
  lemma AdoptsMeans(d: Disk, name: Data, io: Io)
    requires Adopt(d, name, io).1.Some?
    ensures PartPath(name) in d.files
    ensures Adopt(d, name, io).0.files ==
      (d.files - {PartPath(name), StatePath(name)})[Adopt(d, name, io).1.value := d.files[PartPath(name)]]
  {
    hide IsTemp, PartPath, StatePath;
    TempIsTemp(name, io.adoptTemp.value);
    NamesApart(TempPath(name, io.adoptTemp.value), name, name);
  }

  // ---- blocks ----

  /** An open block takes a shard only of the same geometry. */
  lemma SameBlock(s: Sys, t: Transfer, p: Wire.Packet)
    requires Sane(p) && p.blockIndex in t.blocks
    ensures BlockFor(s, t, p).sys == s
    ensures var b := t.blocks[p.blockIndex];
      BlockFor(s, t, p).transfer == if b.dataShards == p.dataShards && b.parityShards == p.parityShards
          && b.shardSize == p.shardSize && b.blockLen == p.blockLen && b.offset == p.blockOffset
        then Some(t) else None
  {
  }

  /** A new block is opened exactly if, among 32 open ones, a lower one can be given up for it, and then its
      shards fit the 64 MiB of the transfer and the 256 MiB of all. */
  lemma OpensBlock(s: Sys, t: Transfer, p: Wire.Packet)
    requires Sane(p) && p.blockIndex !in t.blocks
    ensures BlockFor(s, t, p).transfer.Some? <==>
      && (|t.blocks| < 32 || exists least: nat :: IsLeast(least, t.blocks.Keys) && least < p.blockIndex)
      && (p.dataShards + p.parityShards) * p.shardSize + t.buffered - Freed(t) <= 67_108_864
      && (p.dataShards + p.parityShards) * p.shardSize + s.asm.buffered - Freed(t) <= 268_435_456
  {
    hide Least;
    if |t.blocks| >= 32 {
      assert |t.blocks.Keys| == |t.blocks|;
      LeastExists(t.blocks.Keys);
      var least :| IsLeast(least, t.blocks.Keys);
      EvictIs(t, p.blockIndex, least);
      LeastIs(least, t.blocks.Keys);
    }
  }

  /** The memory of the block that is given up. */
  ghost function Freed(t: Transfer): int
  {
    if |t.blocks| >= 32 && Least(t.blocks.Keys) in t.blocks then t.blocks[Least(t.blocks.Keys)].reserved else 0
  }

  /** A shard completes its block exactly if it is new and the block then has its number of data shards. */
  lemma CompletesWhen(lib: Lib, s: Sys, t: Transfer, p: Wire.Packet, now: int, io: Io)
    requires Sane(p) && RingFits(s.asm) && p.blockIndex in t.blocks && t.blocks[p.blockIndex].have == |t.blocks[p.blockIndex].shards|
    ensures var b := t.blocks[p.blockIndex];
      && (p.shardIndex in b.shards ==> Feed(lib, s, t, p, now, io) == s)
      && (p.shardIndex !in b.shards ==>
            Feed(lib, s, t, p, now, io) ==
              var b1 := b.(shards := b.shards[p.shardIndex := p.shard], have := |b.shards| + 1);
              if |b.shards| + 1 >= b.dataShards then Complete(lib, s, t, p.blockIndex, b1, now, io)
              else WithTransfer(s, t.(blocks := t.blocks[p.blockIndex := b1])))
  {
  }

  /** The writes a block takes: one a data shard until its bytes are all written. */
  function WritesNeeded(shards: seq<Data>, remaining: nat): nat
  {
    if shards == [] || remaining == 0 then 0 else 1 + WritesNeeded(shards[1..], remaining - Min(|shards[0]|, remaining))
  }

  /** Writing a block succeeds exactly if as many writes do as it takes. */
  lemma {:induction false} WritesWhen(d: Disk, path: Data, off: nat, shards: seq<Data>, remaining: nat, writes: nat)
    ensures WriteShards(d, path, off, shards, remaining, writes).1 <==> writes >= WritesNeeded(shards, remaining)
    decreases |shards|
  {
    if shards != [] && remaining > 0 && writes > 0 {
      var n := Min(|shards[0]|, remaining);
      WritesWhen(WriteAt(d, path, off, shards[0][..n]), path, off + n, shards[1..], remaining - n, writes - 1);
    }
  }

  /** A block that cannot be rebuilt or written fails its transfer: it is over, and its file gone. */
  lemma FailsWhen(lib: Lib, s: Sys, t: Transfer, bi: nat, b: Block, now: int, io: Io)
    requires RingFits(s.asm) && Inv(s) && Registered(s, t)
    requires DataShards(lib, b).None? || io.shardWrites < WritesNeeded(DataShards(lib, b).value, b.blockLen)
    ensures var r := Complete(lib, s, t, bi, b, now, io);
      && t.id !in r.asm.active && t.id in r.asm.done && r.asm.done[t.id] == now && t.tmp !in r.disk.files
  {
    hide DataShards, WriteShards, Inv;
    if DataShards(lib, b).Some? {
      WritesWhen(s.disk, t.tmp, b.offset, DataShards(lib, b).value, b.blockLen, io.shardWrites);
    }
  }

  // ---- the sweep ----

  /** A sweep ends exactly the transfers it visits that have been silent for more than 90 seconds. */
  lemma ExpiresWhen(s: Sys, order: seq<Data>, listing: seq<Data>, now: int, ios: Data -> Io, id: Data)
    requires Inv(s)
    ensures id in Sweep(s, order, listing, now, ios).asm.active <==>
      id in s.asm.active && (id in order ==> now - s.asm.active[id].lastSeen <= 90_000_000_000)
  {
    hide Persist;
    forall x | x in s.asm.active ensures s.asm.active[x].id == x {
      ActiveOwn(s, x);
    }
    ExpiredWhen(s, order, now, ios, id);
  }

  lemma {:induction false} ExpiredWhen(s: Sys, order: seq<Data>, now: int, ios: Data -> Io, id: Data)
    requires forall x | x in s.asm.active :: s.asm.active[x].id == x
    ensures var r := ExpireAll(s, order, now, ios);
      && (id in r.asm.active <==> id in s.asm.active && (id in order ==> now - s.asm.active[id].lastSeen <= 90_000_000_000))
      && (id in r.asm.active ==> r.asm.active[id] == s.asm.active[id])
    decreases |order|
  {
    hide Persist;
    if order != [] {
      var s1 := Expire(s, order[0], now, ios(order[0]));
      ExpiredWhen(s1, order[1..], now, ios, id);
    }
  }

  lemma ActiveOwn(s: Sys, x: Data)
    requires Inv(s) && x in s.asm.active
    ensures s.asm.active[x].id == x
  {
  }

  /** What an expired transfer leaves: its file becomes the partial, beside a state that says what it holds,
      exactly if it has some but not all blocks, nothing better is kept, and every step works. */
  lemma PersistsWhen(d: Disk, t: Transfer, now: int, io: Io)
    requires t.tmp in d.files && t.tmp != PartPath(t.name) && t.tmp != StatePath(t.name)
    ensures var e, kept := Persist(d, t, now, io), 1 <= t.doneCount < t.blockCount && !BetterKept(d.files, t);
      && (kept && io.sync && io.close && io.sidecar && io.rename ==>
            e.files == (d.files - {t.tmp})[StatePath(t.name) := Sidecar(Some(StateOf(t)), now)][PartPath(t.name) := d.files[t.tmp]])
      && (kept && io.sync && io.close && !(io.sidecar && io.rename) ==>
            e.files == d.files - {t.tmp, PartPath(t.name), StatePath(t.name)})
      && (!kept || !io.sync || !io.close ==> e.files == d.files - {t.tmp})
  {
    hide PartPath, StatePath, StateOf;
    SuffixesApart(t.name);
  }

  lemma SuffixesApart(name: Data)
    ensures PartPath(name) != StatePath(name)
  {
    hide Ascii;
    LastBytes();
  }

  /** A readable state of the same file with no fewer blocks, and its partial. */
  ghost predicate BetterKept(files: Dir, t: Transfer)
  {
    var state := StatePath(t.name);
    && PartPath(t.name) in files && state in files && files[state].Sidecar? && files[state].state.Some?
    && var st := files[state].state.value;
      && st.name == t.name && st.fileSize == t.fileSize && st.blockCount == t.blockCount && st.sha256 == t.sha256
      && t.doneCount <= st.doneCount
  }

  /** The state records the transfer's own fields. */
  lemma StateMeans(t: Transfer)
    ensures var st := StateOf(t);
      && st.name == t.name && st.fileSize == t.fileSize && st.sha256 == t.sha256 && st.blockCount == t.blockCount
      && st.written == t.written && st.doneCount == t.doneCount
    ensures (forall b | b in t.blocksDone :: b < t.blockCount) ==>
      DecodedSet(StateOf(t).blocksDone, t.blockCount) == Some(t.blocksDone)
  {
    if forall b | b in t.blocksDone :: b < t.blockCount {
      Bitset.SetRoundTrip(t.blocksDone, t.blockCount);
    }
  }

  /** A resume state that a listing shows is removed once it is more than 24 hours old, and its partial with
      it; everything else stays. */
  ghost predicate Reapable(d: Dir, listing: seq<Data>, now: int, name: Data)
  {
    StatePath(name) in listing && StatePath(name) in d && d[StatePath(name)].Sidecar?
    && now - d[StatePath(name)].mtime > 86_400_000_000_000
  }

  lemma {:induction false} ReapMeans(d: Disk, listing: seq<Data>, now: int)
    ensures var e := Reap(d, listing, now).files;
      && (forall path :: path in e <==> path in d.files && !Reaped(d.files, listing, now, path))
      && forall path | path in e :: e[path] == d.files[path]
    decreases |listing|
  {
    hide StatePath, PartPath, ReapOne, Reaped;
    if listing == [] {
      forall path ensures !Reaped(d.files, [], now, path) {
        NoneReaped(d.files, now, path);
      }
    } else {
      var d1 := ReapOne(d, listing[0], now);
      ReapOneMeans(d, listing[0], now);
      ReapMeans(d1, listing[1..], now);
      forall path
        ensures path in d.files ==>
          (Reaped(d.files, listing, now, path) <==> Reaped(d.files, [listing[0]], now, path) || Reaped(d1.files, listing[1..], now, path))
      {
        ReapedSplit(d.files, d1.files, listing, now, path);
      }
    }
  }

  lemma NoneReaped(d: Dir, now: int, path: Data)
    ensures !Reaped(d, [], now, path)
  {
  }

  /** What the first entry of a listing has reaped, and then the rest. */
  lemma ReapedSplit(d: Dir, d1: Dir, listing: seq<Data>, now: int, path: Data)
    requires listing != [] && (forall p :: p in d1 <==> p in d && !Reaped(d, [listing[0]], now, p)) && forall p | p in d1 :: d1[p] == d[p]
    ensures path in d ==>
      (Reaped(d, listing, now, path) <==> Reaped(d, [listing[0]], now, path) || Reaped(d1, listing[1..], now, path))
  {
    hide StatePath, PartPath;
    if path in d && Reaped(d, listing, now, path) && !Reaped(d, [listing[0]], now, path) {
      var name :| Reapable(d, listing, now, name) && (path == StatePath(name) || path == PartPath(name));
      if Reaped(d, [listing[0]], now, StatePath(name)) {
        var other :| Reapable(d, [listing[0]], now, other) && (StatePath(name) == StatePath(other) || StatePath(name) == PartPath(other));
        PathsApart(name, other);
        assert false;
      }
      assert Reapable(d1, listing[1..], now, name);
    }
    if Reaped(d1, listing[1..], now, path) {
      var name :| Reapable(d1, listing[1..], now, name) && (path == StatePath(name) || path == PartPath(name));
      assert Reapable(d, listing, now, name);
    }
    if Reaped(d, [listing[0]], now, path) {
      var name :| Reapable(d, [listing[0]], now, name) && (path == StatePath(name) || path == PartPath(name));
      assert Reapable(d, listing, now, name);
    }
  }

  lemma PathsApart(a: Data, b: Data)
    ensures StatePath(a) != PartPath(b) && (StatePath(a) == StatePath(b) ==> a == b)
  {
    hide Ascii;
    LastBytes();
    assert StatePath(a)[..|StatePath(a)| - 14] == a && StatePath(b)[..|StatePath(b)| - 14] == b;
    assert StatePath(a)[|StatePath(a)| - 1] == 0x6e && PartPath(b)[|PartPath(b)| - 1] == 0x74;
  }

  lemma ReapOneMeans(d: Disk, entry: Data, now: int)
    ensures var e := ReapOne(d, entry, now).files;
      && (forall path :: path in e <==> path in d.files && !Reaped(d.files, [entry], now, path))
      && forall path | path in e :: e[path] == d.files[path]
  {
    hide Ascii;
    var e := ReapOne(d, entry, now).files;
    if HasSuffix(entry, STATE) {
      var name := TrimSuffix(entry, STATE);
      assert entry == name + STATE;
      assert entry == StatePath(name) && entry in [entry];
      forall other | StatePath(other) == entry ensures other == name {
        PathsApart(other, name);
      }
      assert Reapable(d.files, [entry], now, name) <==> entry in d.files && d.files[entry].Sidecar? && d.files[entry].mtime < now - PARTIAL_RETENTION;
      forall path ensures Reaped(d.files, [entry], now, path) <==>
        Reapable(d.files, [entry], now, name) && (path == StatePath(name) || path == PartPath(name)) {
      }
    } else {
      forall name ensures StatePath(name) != entry {
        assert StatePath(name)[|name|..] == STATE;
      }
    }
  }

  ghost predicate Reaped(d: Dir, listing: seq<Data>, now: int, path: Data)
  {
    exists name :: Reapable(d, listing, now, name) && (path == StatePath(name) || path == PartPath(name))
  }

  /** After a sweep nothing is remembered that ended more than ten minutes ago, and all that ended since is. */
  lemma ForgetsWhen(s: Sys, order: seq<Data>, listing: seq<Data>, now: int, ios: Data -> Io, id: Data)
    ensures var done := Sweep(s, order, listing, now, ios).asm.done;
      && (id in done <==> id in s.asm.done && now - s.asm.done[id] <= 600_000_000_000)
      && (id in done ==> done[id] == s.asm.done[id])
  {
    SameDone(s, order, now, ios);
  }

  lemma {:induction false} SameDone(s: Sys, order: seq<Data>, now: int, ios: Data -> Io)
    ensures ExpireAll(s, order, now, ios).asm.done == s.asm.done
    decreases |order|
  {
    hide Persist;
    if order != [] {
      SameDone(Expire(s, order[0], now, ios(order[0])), order[1..], now, ios);
    }
  }

  // ---- the file system ----

  /** A finished transfer's file is moved under its name exactly if its blocks add up to its size, every step
      before works, and its first fileSize bytes have the announced hash; its own partial goes with it, if
      the move could be made durable. */
  lemma LandsWhen(lib: Lib, d: Disk, t: Transfer, io: Io)
    requires t.tmp in d.files && d.files[t.tmp].Plain? && IsTemp(t.tmp) && IsFinal(t.name)
    ensures var e, bytes := Land(lib, d, t, io).files, Resized(d.files[t.tmp].bytes, t.fileSize);
      && (t.written == t.fileSize && lib.sha(bytes) == t.sha256 && io.truncate && io.read && io.sync && io.close && io.rename ==>
            && e.Keys == d.files.Keys - {t.tmp} - (if io.syncDir then {PartPath(t.name), StatePath(t.name)} else {}) + {t.name}
            && e[t.name] == Plain(bytes) && forall path | path in e && path != t.name :: e[path] == d.files[path])
      && (!(t.written == t.fileSize && lib.sha(bytes) == t.sha256 && io.truncate && io.read && io.sync && io.close && io.rename) ==>
            e == d.files - {t.tmp})
  {
    hide Ascii, IsTemp, SizeLimit, PartPath, StatePath, Resized;
    NamesApart(t.tmp, t.name, t.name);
  }

  /** The rebuilt shards are used only where a shard is missing, and not at all if the library fails or gives
      too few or one of another size. */
  lemma RebuildsWhen(lib: Lib, b: Block)
    ensures var rebuilt := lib.rebuild(b.dataShards, b.parityShards, Slots(b));
      && ((forall i | 0 <= i < b.dataShards :: i in b.shards) ==>
            && DataShards(lib, b).Some? && |DataShards(lib, b).value| == b.dataShards
            && forall i | 0 <= i < b.dataShards :: DataShards(lib, b).value[i] == b.shards[i])
      && (!(forall i | 0 <= i < b.dataShards :: i in b.shards) ==>
            && (DataShards(lib, b).Some? <==>
                  rebuilt.Some? && |rebuilt.value| >= b.dataShards && forall i | 0 <= i < b.dataShards :: |rebuilt.value[i]| == b.shardSize)
            && (DataShards(lib, b).Some? ==>
                  && |DataShards(lib, b).value| == b.dataShards
                  && forall i | 0 <= i < b.dataShards ::
                       DataShards(lib, b).value[i] == if i in b.shards then b.shards[i] else rebuilt.value[i]))
  {
  }
}
