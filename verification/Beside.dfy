/** What handling one transfer's datagram, or a sweep, leaves of all the others, and what it changes of
    the transfer's own progress. */
module Beside {
  import opened Bytes
  import opened Library
  import opened Landing
  import opened MapSum
  import opened Machine
  import opened Invariant
  import opened Frames
  import opened Preserve
  import Wire

  ghost predicate OthersSame(a: map<Data, Transfer>, b: map<Data, Transfer>, id: Data)
  {
    forall x | x != id :: (x in a <==> x in b) && (x in a && x in b ==> a[x] == b[x])
  }

  /** Names that handling a transfer of a file may touch: the file's own, its final one if it is a
      bundle file, and temporary names that no other transfer has. */
  ghost predicate Own(active: map<Data, Transfer>, id: Data, name: Data, names: set<Data>)
  {
    forall n | n in names :: n == PartPath(name) || n == StatePath(name) || (n == name && IsFinal(name)) || OwnTemp(active, id, n)
  }

  ghost predicate OwnTemp(active: map<Data, Transfer>, id: Data, n: Data)
  {
    IsTemp(n) && forall x | x in active && x != id :: active[x].tmp != n
  }

  lemma OwnPrivate(active: map<Data, Transfer>, id: Data, name: Data, tmp: Data)
    requires OwnTemp(active, id, tmp)
    ensures Own(active, id, name, Private(name, tmp)) && Own(active, id, name, {tmp})
    ensures IsFinal(name) ==> Own(active, id, name, Private(name, tmp) + {name})
  {
    hide IsTemp, PartPath, StatePath, SizeLimit;
  }

  lemma OwnMore(active: map<Data, Transfer>, id: Data, name: Data, a: set<Data>, b: set<Data>)
    requires Own(active, id, name, a) && Own(active, id, name, b)
    ensures Own(active, id, name, a + b)
  {
    hide OwnTemp, PartPath, StatePath;
  }

  lemma FreeIsOwn(active: map<Data, Transfer>, files: Dir, id: Data, tmp: Data)
    requires TempsOk(active, files) && IsTemp(tmp) && tmp !in files
    ensures OwnTemp(active, id, tmp)
  {
    hide IsTemp;
    forall x | x in active ensures active[x].tmp != tmp {
      assert TempOk(active[x], files);
    }
  }

  lemma TmpIsOwn(s: Sys, t: Transfer)
    requires Inv(s) && Registered(s, t)
    ensures OwnTemp(s.asm.active, t.id, t.tmp)
  {
    hide IsTemp, AsmOk;
    assert TempOk(t, s.disk.files);
  }

  // ---- finding or opening the transfer ----

  lemma OpenFileTouches(active: map<Data, Transfer>, d: Disk, id: Data, name: Data, resuming: bool, io: Io) returns (names: set<Data>)
    requires TempsOk(active, d.files)
    ensures Touches(d, OpenFile(d, name, resuming, io).0, names) && Own(active, id, name, names)
  {
    hide IsTemp, PartPath, StatePath, Adopt, TempsOk, OwnTemp;
    var d1 := d;
    names := {};
    NoTouch(d, names);
    if resuming {
      var tmp := AdoptTouches(d, name, io);
      d1 := Adopt(d, name, io).0;
      names := Private(name, tmp);
      FreeIsOwn(active, d.files, id, tmp);
      OwnPrivate(active, id, name, tmp);
      PrivateApart(active, d.files, name, tmp);
      TempsFrame(active, d.files, d1.files, names);
    }
    if CreateTemp(d1, name, io.freshTemp).Some? {
      var (d2, path) := CreateTemp(d1, name, io.freshTemp).value;
      TempIsTemp(name, io.freshTemp.value);
      FreeIsOwn(active, d1.files, id, path);
      OwnPrivate(active, id, name, path);
      NextTouches(d1, d2.files, {path});
      ghost var more := names + {path};
      TouchesMore(d, d1, names, more);
      TouchesMore(d1, d2, {path}, more);
      TouchesTrans(d, d1, d2, more);
      TouchesMore(d, d1, names, more);
      OwnMore(active, id, name, names, {path});
      names := more;
    }
  }

  lemma TransferForBeside(lib: Lib, s: Sys, p: Wire.Packet, io: Io) returns (names: set<Data>)
    requires Inv(s) && Sane(p) && p.transferID !in s.asm.done
    ensures var f := TransferFor(lib, s, p, io);
      && OthersSame(s.asm.active, f.sys.asm.active, p.transferID) && f.sys.asm.done == s.asm.done
      && Touches(s.disk, f.sys.disk, names) && Own(s.asm.active, p.transferID, p.name, names)
      && (p.transferID in s.asm.active ==> f.sys == s && (f.transfer.Some? ==> f.transfer.value == s.asm.active[p.transferID]))
      && (p.transferID !in s.asm.active && f.transfer.None? ==> p.transferID !in f.sys.asm.active)
  {
    hide Probe, Admits, AsmOk, TempsOk, OpenFile, Own, Touches;
    names := {};
    NoTouch(s.disk, names);
    NothingOwn(s.asm.active, p.transferID, p.name);
    if p.transferID !in s.asm.active {
      var resume := Probe(s.disk.files, p);
      names := OpenFileTouches(s.asm.active, s.disk, p.transferID, p.name, resume.Some?, io);
      if !Admits(lib, s.asm, p, resume, io) || !io.mkdir {
        names := {};
      }
    }
  }

  lemma NothingOwn(active: map<Data, Transfer>, id: Data, name: Data)
    ensures Own(active, id, name, {})
  {
  }

  // ---- the block ----

  /** Bytes outside a range stay. */
  ghost predicate SameOutside(x: Data, y: Data, lo: nat, hi: nat)
  {
    forall i | 0 <= i < |x| && (i < lo || hi <= i) :: i < |y| && y[i] == x[i]
  }

  lemma WriteInside(d: Disk, path: Data, off: nat, data: Data, remaining: nat)
    requires path in d.files && d.files[path].Plain? && |data| <= remaining
    ensures var e := WriteAt(d, path, off, data);
      path in e.files && e.files[path].Plain? && SameOutside(Content(d.files, path), Content(e.files, path), off, off + remaining)
  {
    var x := Content(d.files, path);
    forall i | 0 <= i < |x| && (i < off || off + remaining <= i)
      ensures i < |Overlay(x, off, data)| && Overlay(x, off, data)[i] == x[i]
    {
      OverlayAt(x, off, data, i);
    }
  }

  lemma InsideThen(x: Data, y: Data, z: Data, lo: nat, hi: nat, from: nat)
    requires SameOutside(x, y, lo, hi) && SameOutside(y, z, from, hi) && lo <= from
    ensures SameOutside(x, z, lo, hi)
  {
  }

  lemma {:induction false} WritesInside(d: Disk, path: Data, off: nat, shards: seq<Data>, remaining: nat, writes: nat)
    requires path in d.files && d.files[path].Plain?
    ensures var e := WriteShards(d, path, off, shards, remaining, writes).0;
      SameOutside(Content(d.files, path), Content(e.files, path), off, off + remaining)
    decreases |shards|
  {
    hide SameOutside, Content, WriteAt;
    if shards == [] || remaining == 0 || writes == 0 {
      SameBytes(Content(d.files, path), off, off + remaining);
    } else {
      var n := Min(|shards[0]|, remaining);
      var d1 := WriteAt(d, path, off, shards[0][..n]);
      WriteInside(d, path, off, shards[0][..n], remaining);
      WritesInside(d1, path, off + n, shards[1..], remaining - n, writes - 1);
      var e := WriteShards(d, path, off, shards, remaining, writes).0;
      InsideThen(Content(d.files, path), Content(d1.files, path), Content(e.files, path), off, off + remaining, off + n);
    }
  }

  lemma SameBytes(x: Data, lo: nat, hi: nat)
    ensures SameOutside(x, x, lo, hi)
  {
  }

  /** What one of its datagrams makes of a transfer that goes on: no done block is lost, and its file
      changes only where a block that becomes done lies. */
  ghost predicate Grown(t: Transfer, now: Transfer, f: Dir, g: Dir, p: Wire.Packet)
    requires Sane(p)
  {
    && now.(blocks := t.blocks, blocksDone := t.blocksDone, doneCount := t.doneCount, written := t.written, buffered := t.buffered) == t
    && t.written <= now.written
    && (now.blocksDone == t.blocksDone || (p.blockIndex !in t.blocksDone && now.blocksDone == t.blocksDone + {p.blockIndex}))
    && (now.blocksDone == t.blocksDone ==> Content(g, t.tmp) == Content(f, t.tmp))
    && SameOutside(Content(f, t.tmp), Content(g, t.tmp), p.blockOffset, p.blockOffset + p.blockLen)
  }

  /** What a transfer's part in a step leaves of the machine. */
  ghost predicate Apart(s: Sys, r: Sys, id: Data, names: set<Data>)
  {
    && OthersSame(s.asm.active, r.asm.active, id) && Touches(s.disk, r.disk, names)
    && forall x | x in r.asm.done :: x in s.asm.done || x == id
  }

  lemma EndApart(s: Sys, t: Transfer, now: int, disk: Disk)
    requires RingFits(s.asm) && Touches(s.disk, disk, LandNames(t))
    ensures var r := Sys(RememberDone(RemoveActive(s.asm, t), t.id, now), disk);
      Apart(s, r, t.id, LandNames(t)) && t.id !in r.asm.active
  {
    hide RememberDone, Sum, Reserved, LandNames, Touches;
    RememberBeside(RemoveActive(s.asm, t), t.id, now);
  }

  lemma FailApart(s: Sys, d: Disk, t: Transfer, now: int)
    requires RingFits(s.asm) && Touches(s.disk, d, LandNames(t))
    ensures var r := Fail(s.(disk := d), t, now);
      Apart(s, r, t.id, LandNames(t)) && t.id !in r.asm.active
  {
    hide RememberDone, RemoveActive, LandNames, Touches, Remove, Apart;
    TmpLands(t);
    RemoveThen(s.disk, d, t.tmp, LandNames(t));
    EndApart(s, t, now, Remove(d, t.tmp));
  }

  lemma FinishApart(lib: Lib, s: Sys, d: Disk, t: Transfer, t1: Transfer, now: int, io: Io)
    requires RingFits(s.asm) && Touches(s.disk, d, LandNames(t)) && Registered(s, t)
    requires t1.id == t.id && t1.name == t.name && t1.tmp == t.tmp
    ensures var r := Finish(lib, Rebuffer(s.(disk := d), t, t1), t1, now, io);
      Apart(s, r, t.id, LandNames(t)) && t.id !in r.asm.active
  {
    hide RememberDone, Sum, Reserved, LandNames, Touches, Land;
    LandTouches(lib, d, t1, io);
    SameLandNames(t, t1);
    TouchesTrans(s.disk, d, Land(lib, d, t1, io), LandNames(t));
    RememberBeside(RemoveActive(Rebuffer(s, t, t1).asm, t1), t1.id, now);
  }

  lemma CompletedGrown(s: Sys, d: Disk, t: Transfer, p: Wire.Packet, b: Block)
    requires Registered(s, t) && Sane(p) && SameGeometry(b, p) && p.blockIndex !in t.blocksDone
    requires SameOutside(Content(s.disk.files, t.tmp), Content(d.files, t.tmp), b.offset, b.offset + b.blockLen)
    requires Touches(s.disk, d, LandNames(t))
    ensures var r := Rebuffer(s.(disk := d), t, Completed(t, p.blockIndex, b));
      && Apart(s, r, t.id, LandNames(t)) && r.disk == d
      && t.id in r.asm.active && Grown(t, r.asm.active[t.id], s.disk.files, r.disk.files, p)
  {
    hide SameOutside, Content, Touches, LandNames, Sane;
  }

  lemma CompleteBeside(lib: Lib, s: Sys, t: Transfer, p: Wire.Packet, b: Block, now: int, io: Io)
    requires Inv(s) && Registered(s, t) && Sane(p) && p.blockIndex in t.blocks && SameGeometry(b, p)
    ensures RingFits(s.asm)
    ensures var r := Complete(lib, s, t, p.blockIndex, b, now, io);
      && Apart(s, r, t.id, LandNames(t))
      && (t.id in r.asm.active ==> Grown(t, r.asm.active[t.id], s.disk.files, r.disk.files, p))
  {
    hide DataShards, WriteShards, Inv, LandNames, Touches, SameOutside, Content, Apart, Fail, Finish, Rebuffer, Grown, SameGeometry,
      Completed, RingFits, BlockOk, Sane;
    RingFitsInv(s);
    var data := DataShards(lib, b);
    LandOwn(s.disk, t);
    if data.None? {
      FailApart(s, s.disk, t, now);
      assert s.(disk := s.disk) == s;
    } else {
      CompletedFrame(t, p.blockIndex, b);
      var (d, ok) := WriteShards(s.disk, t.tmp, b.offset, data.value, b.blockLen, io.shardWrites);
      WriteShardsTouches(s.disk, t.tmp, b.offset, data.value, b.blockLen, io.shardWrites);
      TmpLands(t);
      TouchesMore(s.disk, d, {t.tmp}, LandNames(t));
      var t1 := Completed(t, p.blockIndex, b);
      FailApart(s, d, t, now);
      FinishApart(lib, s, d, t, t1, now, io);
      BlockFacts(s, t, p.blockIndex);
      TempThere(s, t);
      WritesInside(s.disk, t.tmp, b.offset, data.value, b.blockLen, io.shardWrites);
      CompletedGrown(s, d, t, p, b);
    }
  }

  lemma TempThere(s: Sys, t: Transfer)
    requires Inv(s) && Registered(s, t)
    ensures t.tmp in s.disk.files && s.disk.files[t.tmp].Plain?
  {
    hide IsTemp, AsmOk;
    assert TempOk(t, s.disk.files);
  }

  lemma LandOwn(d: Disk, t: Transfer)
    ensures Touches(d, d, LandNames(t))
  {
    NoTouch(d, LandNames(t));
  }

  lemma TmpLands(t: Transfer)
    ensures {t.tmp} <= LandNames(t) && t.tmp in LandNames(t)
  {
  }

  lemma SameLandNames(t: Transfer, t1: Transfer)
    requires t1.name == t.name && t1.tmp == t.tmp
    ensures LandNames(t1) == LandNames(t)
  {
  }

  lemma RememberBeside(asm: Asm, id: Data, now: int)
    requires RingFits(asm)
    ensures var r := RememberDone(asm, id, now);
      r.active == asm.active && forall x | x in r.done :: x in asm.done || x == id
  {
  }

  lemma BlockForBeside(s: Sys, t: Transfer, p: Wire.Packet)
    requires Registered(s, t) && Sane(p)
    ensures var g := BlockFor(s, t, p).sys;
      && OthersSame(s.asm.active, g.asm.active, t.id) && g.disk == s.disk && g.asm.done == s.asm.done
      && t.id in g.asm.active && g.asm.active[t.id].(blocks := t.blocks, buffered := t.buffered) == t
  {
    hide BlockFor, Sane;
    BlockForFrame(s, t, p);
    var g := BlockFor(s, t, p).sys;
    forall x | x != t.id
      ensures (x in s.asm.active <==> x in g.asm.active) && (x in s.asm.active && x in g.asm.active ==> s.asm.active[x] == g.asm.active[x])
    {
      assert x in s.asm.active - {t.id} <==> x in g.asm.active - {t.id};
      assert x in s.asm.active ==> (s.asm.active - {t.id})[x] == (g.asm.active - {t.id})[x];
    }
  }

  lemma StoredGrown(s: Sys, t: Transfer, p: Wire.Packet, blocks: map<nat, Block>)
    requires Registered(s, t) && Sane(p)
    ensures var r := WithTransfer(s, t.(blocks := blocks));
      Apart(s, r, t.id, LandNames(t)) && Grown(t, r.asm.active[t.id], s.disk.files, r.disk.files, p)
  {
    hide LandNames, Touches, Sane;
    LandOwn(s.disk, t);
  }

  lemma NothingApart(s: Sys, t: Transfer, p: Wire.Packet)
    requires Registered(s, t) && Sane(p)
    ensures Apart(s, s, t.id, LandNames(t)) && Grown(t, t, s.disk.files, s.disk.files, p)
  {
    hide LandNames, Touches, Sane;
    LandOwn(s.disk, t);
  }

  lemma FeedBeside(lib: Lib, s: Sys, t: Transfer, p: Wire.Packet, now: int, io: Io)
    requires Inv(s) && Registered(s, t) && Sane(p) && p.blockIndex in t.blocks && SameGeometry(t.blocks[p.blockIndex], p)
    ensures RingFits(s.asm)
    ensures var r := Feed(lib, s, t, p, now, io);
      && Apart(s, r, t.id, LandNames(t))
      && (t.id in r.asm.active ==> Grown(t, r.asm.active[t.id], s.disk.files, r.disk.files, p))
  {
    hide Complete, Inv, LandNames, Apart, Grown, RingFits, Sane;
    RingFitsInv(s);
    NothingApart(s, t, p);
    var b := AddShard(t.blocks[p.blockIndex], p);
    StoredGrown(s, t, p, t.blocks[p.blockIndex := b]);
    CompleteBeside(lib, s, t, p, b, now, io);
  }

  /** Opening a block, then a step with the transfer that has it. */
  lemma ThroughBlock(s: Sys, g: Sys, r: Sys, t: Transfer, t1: Transfer, p: Wire.Packet)
    requires Sane(p) && g.disk == s.disk && g.asm.done == s.asm.done && OthersSame(s.asm.active, g.asm.active, t.id)
    requires t1.(blocks := t.blocks, buffered := t.buffered) == t && Apart(g, r, t.id, LandNames(t1))
    requires t.id in r.asm.active ==> Grown(t1, r.asm.active[t.id], g.disk.files, r.disk.files, p)
    ensures Apart(s, r, t.id, LandNames(t))
    ensures t.id in r.asm.active ==> Grown(t, r.asm.active[t.id], s.disk.files, r.disk.files, p)
  {
    hide Touches, LandNames, Content, SameOutside, Sane;
    SameLandNames(t, t1);
  }

  lemma RestBeside(lib: Lib, s: Sys, t: Transfer, p: Wire.Packet, now: int, io: Io)
    requires Inv(s) && Registered(s, t) && Sane(p) && Announces(t, p)
    ensures RingFits(s.asm)
    ensures var r := Rest(lib, s, t, p, now, io);
      && Apart(s, r, t.id, LandNames(t))
      && (t.id in r.asm.active ==> Grown(t, r.asm.active[t.id], s.disk.files, r.disk.files, p))
  {
    hide Feed, BlockFor, Inv, LandNames, Content, SameGeometry, Apart, Grown, Sane, RingFits;
    RingFitsInv(s);
    NothingApart(s, t, p);
    if p.blockIndex !in t.blocksDone {
      BlockForBeside(s, t, p);
      BlockForKeeps(s, t, p);
      var g := BlockFor(s, t, p);
      RingFitsInv(g.sys);
      var t1 := g.sys.asm.active[t.id];
      if g.transfer.Some? {
        FeedBeside(lib, g.sys, t1, p, now, io);
        ThroughBlock(s, g.sys, Feed(lib, g.sys, t1, p, now, io), t, t1, p);
      } else {
        NothingApart(g.sys, t1, p);
        ThroughBlock(s, g.sys, g.sys, t, t1, p);
      }
    }
  }

  // ---- one datagram ----

  /** What handling a packet does to the machine outside its own transfer, and to its own transfer. */
  ghost predicate Handled(s: Sys, r: Sys, p: Wire.Packet, now: int, names: set<Data>)
    requires Sane(p)
  {
    var id := p.transferID;
    && OthersSame(s.asm.active, r.asm.active, id)
    && Touches(s.disk, r.disk, names) && Own(s.asm.active, id, p.name, names)
    && (forall x | x in r.asm.done :: x in s.asm.done || x == id)
    && (id in r.asm.active ==> if r == s then true else r.asm.active[id].name == p.name && r.asm.active[id].lastSeen == now)
    && (id in r.asm.active && id in s.asm.active ==>
          r == s || Grown(s.asm.active[id].(lastSeen := now), r.asm.active[id], s.disk.files, r.disk.files, p))
  }

  lemma NothingHandled(s: Sys, p: Wire.Packet, now: int)
    requires Sane(p)
    ensures Handled(s, s, p, now, {})
  {
    hide Touches, Grown, Sane;
    NoTouch(s.disk, {});
  }

  /** The step with a transfer that was found or opened. */
  lemma FoundHandled(s: Sys, f: Sys, found: Transfer, r: Sys, p: Wire.Packet, now: int, names: set<Data>)
    requires Sane(p) && Inv(f) && Registered(f, found) && found.id == p.transferID && found.name == p.name
    requires OthersSame(s.asm.active, f.asm.active, p.transferID) && f.asm.done == s.asm.done
    requires Touches(s.disk, f.disk, names) && Own(s.asm.active, p.transferID, p.name, names)
    requires p.transferID in s.asm.active ==> f == s
    requires var t := found.(lastSeen := now);
      && Apart(WithTransfer(f, t), r, t.id, LandNames(t))
      && (t.id in r.asm.active ==> Grown(t, r.asm.active[t.id], f.disk.files, r.disk.files, p))
    ensures Handled(s, r, p, now, names + LandNames(found))
  {
    hide Inv, Touches, Own, Grown, LandNames, Sane, TransferOk;
    var t := found.(lastSeen := now);
    var all := names + LandNames(found);
    TmpIsOwn(f, found);
    SameOwn(f.asm.active, s.asm.active, t.id, t.tmp);
    OwnPrivate(s.asm.active, t.id, t.name, t.tmp);
    InBudget(f, found);
    SizeKnown(found);
    LandOwns(s.asm.active, t);
    SameLandNames(found, t);
    OwnMore(s.asm.active, t.id, p.name, names, LandNames(t));
    TouchesMore(s.disk, f.disk, names, all);
    TouchesMore(f.disk, r.disk, LandNames(t), all);
    TouchesTrans(s.disk, f.disk, r.disk, all);
    if t.id in r.asm.active {
      GrownName(t, r.asm.active[t.id], f.disk.files, r.disk.files, p);
    }
  }

  lemma RefusedHandled(s: Sys, f: Sys, p: Wire.Packet, now: int, names: set<Data>)
    requires Sane(p) && OthersSame(s.asm.active, f.asm.active, p.transferID) && f.asm.done == s.asm.done
    requires Touches(s.disk, f.disk, names) && Own(s.asm.active, p.transferID, p.name, names)
    requires p.transferID in s.asm.active ==> f == s
    requires p.transferID !in s.asm.active ==> p.transferID !in f.asm.active
    ensures Handled(s, f, p, now, names)
  {
    hide Touches, Own, Grown, Sane;
  }

  lemma ReceiveBeside(lib: Lib, s: Sys, p: Wire.Packet, now: int, io: Io) returns (names: set<Data>)
    requires Inv(s) && Sane(p)
    ensures RingFits(s.asm) && Handled(s, Receive(lib, s, p, now, io), p, now, names)
  {
    hide TransferFor, Rest, Inv, Touches, Own, Grown, Announces, LandNames, Sane, Handled, Apart, OthersSame, RingFits;
    RingFitsInv(s);
    names := {};
    NothingHandled(s, p, now);
    if p.transferID !in s.asm.done {
      names := TransferForBeside(lib, s, p, io);
      TransferForKeeps(lib, s, p, io);
      var f := TransferFor(lib, s, p, io);
      RingFitsInv(f.sys);
      if f.transfer.None? {
        RefusedHandled(s, f.sys, p, now, names);
      } else {
        var t := f.transfer.value.(lastSeen := now);
        var s1 := WithTransfer(f.sys, t);
        TouchKeeps(f.sys, f.transfer.value, now);
        RingFitsInv(s1);
        StillAnnounces(f.transfer.value, p, now);
        RestBeside(lib, s1, t, p, now, io);
        FoundHandled(s, f.sys, f.transfer.value, Rest(lib, s1, t, p, now, io), p, now, names);
        names := names + LandNames(f.transfer.value);
      }
    }
  }

  lemma StillAnnounces(t: Transfer, p: Wire.Packet, now: int)
    requires Sane(p) && Announces(t, p)
    ensures Announces(t.(lastSeen := now), p) && t.id == p.transferID && t.name == p.name
  {
  }

  lemma SameOwn(a: map<Data, Transfer>, b: map<Data, Transfer>, id: Data, tmp: Data)
    requires OwnTemp(a, id, tmp) && OthersSame(b, a, id)
    ensures OwnTemp(b, id, tmp)
  {
    hide IsTemp;
  }

  lemma LandOwns(active: map<Data, Transfer>, t: Transfer)
    requires Own(active, t.id, t.name, Private(t.name, t.tmp) + {t.name})
    ensures Own(active, t.id, t.name, LandNames(t))
  {
    hide Own;
  }

  lemma GrownName(t: Transfer, now: Transfer, f: Dir, g: Dir, p: Wire.Packet)
    requires Sane(p) && Grown(t, now, f, g, p)
    ensures now.name == t.name && now.lastSeen == t.lastSeen && now.id == t.id && now.tmp == t.tmp
  {
  }

  // ---- a transfer and its file name, while others are served ----

  /** No other active transfer is of the file. */
  ghost predicate Sole(s: Sys, id: Data, name: Data)
  {
    forall x | x in s.asm.active && x != id :: s.asm.active[x].name != name
  }

  ghost predicate SameAt(f: Dir, g: Dir, path: Data)
  {
    (path in f <==> path in g) && (path in f && path in g ==> g[path] == f[path])
  }

  /** The transfer is as it was, and so are its temporary file and the file's final name. */
  ghost predicate Spared(s: Sys, r: Sys, id: Data, name: Data)
  {
    && (id in r.asm.active <==> id in s.asm.active)
    && (id in s.asm.active && id in r.asm.active ==>
          r.asm.active[id] == s.asm.active[id] && SameAt(s.disk.files, r.disk.files, s.asm.active[id].tmp))
    && SameAt(s.disk.files, r.disk.files, name) && Sole(r, id, name) && (id in r.asm.done ==> id in s.asm.done)
  }

  /** So are the file's partial and its state. */
  ghost predicate Untouched(s: Sys, r: Sys, id: Data, name: Data)
  {
    && Spared(s, r, id, name)
    && SameAt(s.disk.files, r.disk.files, StatePath(name)) && SameAt(s.disk.files, r.disk.files, PartPath(name))
  }

  lemma UntouchedTrans(a: Sys, b: Sys, c: Sys, id: Data, name: Data)
    requires Untouched(a, b, id, name) && Untouched(b, c, id, name)
    ensures Untouched(a, c, id, name)
  {
    hide StatePath, PartPath;
  }

  lemma UntouchedSelf(s: Sys, id: Data, name: Data)
    requires Sole(s, id, name)
    ensures Untouched(s, s, id, name)
  {
    hide StatePath, PartPath;
  }

  lemma OutsideSame(f: Dir, g: Dir, names: set<Data>, path: Data)
    requires AgreeOutside(f, g, names) && path !in names
    ensures SameAt(f, g, path)
  {
  }

  /** Another transfer's own names are none of this one's. */
  lemma OwnElsewhere(s: Sys, other: Data, otherName: Data, names: set<Data>, id: Data, name: Data)
    requires Inv(s) && Own(s.asm.active, other, otherName, names) && other != id && otherName != name && IsFinal(name)
    ensures StatePath(name) !in names && PartPath(name) !in names && name !in names
    ensures id in s.asm.active ==> s.asm.active[id].tmp !in names
  {
    hide IsTemp, PartPath, StatePath, AsmOk, SizeLimit;
    forall n | n in names ensures n != StatePath(name) && n != PartPath(name) && n != name {
      ApartFrom(n, otherName, name);
    }
    if id in s.asm.active {
      TmpElsewhere(s, other, otherName, names, id);
    }
  }

  /** Nor is its temporary file. */
  lemma TmpElsewhere(s: Sys, other: Data, otherName: Data, names: set<Data>, id: Data)
    requires Inv(s) && Own(s.asm.active, other, otherName, names) && other != id && id in s.asm.active
    ensures s.asm.active[id].tmp !in names
  {
    hide IsTemp, PartPath, StatePath, AsmOk, SizeLimit;
    assert TempOk(s.asm.active[id], s.disk.files);
    NamesApart(s.asm.active[id].tmp, otherName, otherName);
  }

  lemma ApartFrom(n: Data, otherName: Data, name: Data)
    requires n == PartPath(otherName) || n == StatePath(otherName) || (n == otherName && IsFinal(otherName)) || IsTemp(n)
    requires otherName != name && IsFinal(name)
    ensures n != StatePath(name) && n != PartPath(name) && n != name
  {
    hide IsTemp, PartPath, StatePath, SizeLimit;
    var tmp := FreeTemp(Disk(map[], []));
    NamesApart(tmp, otherName, name);
    NamesApart(tmp, name, otherName);
    if IsTemp(n) {
      NamesApart(n, name, name);
    }
  }

  /** A datagram of another transfer, of another file, leaves this one alone. */
  lemma OtherUntouched(lib: Lib, s: Sys, p: Wire.Packet, now: int, io: Io, id: Data, name: Data)
    requires Inv(s) && Sane(p) && Sole(s, id, name) && p.transferID != id && p.name != name && IsFinal(name)
    ensures RingFits(s.asm) && Untouched(s, Receive(lib, s, p, now, io), id, name)
  {
    hide Inv, Receive, Own, IsTemp, PartPath, StatePath, SizeLimit, Grown, AgreeOutside, RingFits, Sane;
    var names := ReceiveBeside(lib, s, p, now, io);
    var r := Receive(lib, s, p, now, io);
    OwnElsewhere(s, p.transferID, p.name, names, id, name);
    OutsideSame(s.disk.files, r.disk.files, names, StatePath(name));
    OutsideSame(s.disk.files, r.disk.files, names, PartPath(name));
    OutsideSame(s.disk.files, r.disk.files, names, name);
    if id in s.asm.active {
      OutsideSame(s.disk.files, r.disk.files, names, s.asm.active[id].tmp);
    }
  }

  // ---- sweeps ----

  lemma ExpireUntouched(s: Sys, x: Data, now: int, io: Io, id: Data, name: Data)
    requires Inv(s) && Sole(s, id, name) && IsFinal(name)
    requires x == id && id in s.asm.active ==> now - s.asm.active[id].lastSeen <= STALE_AFTER
    ensures Untouched(s, Expire(s, x, now, io), id, name)
  {
    hide AsmOk, IsTemp, PartPath, StatePath, SizeLimit, Persist, Sum, Reserved, AgreeOutside;
    UntouchedSelf(s, id, name);
    if x != id && x in s.asm.active {
      var t := s.asm.active[x];
      ActiveId(s, x);
      PersistTouches(s.disk, t, now, io);
      TmpIsOwn(s, t);
      OwnPrivate(s.asm.active, x, t.name, t.tmp);
      var names := Private(t.name, t.tmp);
      OwnElsewhere(s, x, t.name, names, id, name);
      var files := Persist(s.disk, t, now, io).files;
      OutsideSame(s.disk.files, files, names, StatePath(name));
      OutsideSame(s.disk.files, files, names, PartPath(name));
      OutsideSame(s.disk.files, files, names, name);
      if id in s.asm.active {
        OutsideSame(s.disk.files, files, names, s.asm.active[id].tmp);
      }
    }
  }

  lemma ActiveId(s: Sys, x: Data)
    requires Inv(s) && x in s.asm.active
    ensures s.asm.active[x].id == x && Registered(s, s.asm.active[x])
  {
    hide TransferOk;
  }

  lemma {:induction false} ExpireAllUntouched(s: Sys, order: seq<Data>, now: int, io: Data -> Io, id: Data, name: Data)
    requires Inv(s) && Sole(s, id, name) && IsFinal(name)
    requires id in s.asm.active ==> now - s.asm.active[id].lastSeen <= STALE_AFTER
    ensures Untouched(s, ExpireAll(s, order, now, io), id, name)
    decreases |order|
  {
    hide Inv, Expire, SizeLimit, SameAt, PartPath, StatePath;
    UntouchedSelf(s, id, name);
    if order != [] {
      var r := Expire(s, order[0], now, io(order[0]));
      ExpireUntouched(s, order[0], now, io(order[0]), id, name);
      ExpireKeeps(s, order[0], now, io(order[0]));
      ExpireAllUntouched(r, order[1..], now, io, id, name);
      UntouchedTrans(s, r, ExpireAll(r, order[1..], now, io), id, name);
    }
  }

  /** What a reaping leaves of a path: the file that was there, or nothing. */
  ghost predicate SameOrGone(f: Dir, g: Dir, path: Data)
  {
    path in g ==> path in f && g[path] == f[path]
  }

  lemma ReapSpares(s: Sys, listing: seq<Data>, now: int, id: Data, name: Data)
    requires Inv(s) && Sole(s, id, name) && IsFinal(name)
    ensures var r := Sys(Forget(s.asm, now), Reap(s.disk, listing, now));
      && Spared(s, r, id, name)
      && SameOrGone(s.disk.files, r.disk.files, StatePath(name)) && SameOrGone(s.disk.files, r.disk.files, PartPath(name))
  {
    hide AsmOk, IsTemp, PartPath, StatePath, SizeLimit, Reap, AgreeOutside;
    ForgetActive(s.asm, now);
    ReapTouches(s.disk, listing, now);
    var files := Reap(s.disk, listing, now).files;
    OutsideSame(s.disk.files, files, Reapable(s.disk.files), name);
    if id in s.asm.active {
      assert TempOk(s.asm.active[id], s.disk.files);
      TempNotReapable(s.asm.active[id], s.disk.files);
      OutsideSame(s.disk.files, files, Reapable(s.disk.files), s.asm.active[id].tmp);
    }
  }

  /** A sweep at which the transfer is not stale spares it, whichever others it expires. */
  lemma SweepSpares(s: Sys, order: seq<Data>, listing: seq<Data>, now: int, ios: Data -> Io, id: Data, name: Data)
    requires Inv(s) && Sole(s, id, name) && IsFinal(name)
    requires id in s.asm.active ==> now - s.asm.active[id].lastSeen <= STALE_AFTER
    ensures var r := Sweep(s, order, listing, now, ios);
      && Spared(s, r, id, name)
      && SameOrGone(s.disk.files, r.disk.files, StatePath(name)) && SameOrGone(s.disk.files, r.disk.files, PartPath(name))
  {
    hide Inv, ExpireAll, Reap, Forget, SizeLimit, PartPath, StatePath;
    ExpireAllUntouched(s, order, now, ios, id, name);
    ExpireAllKeeps(s, order, now, ios);
    ReapSpares(ExpireAll(s, order, now, ios), listing, now, id, name);
  }

  /** A transfer that a sweep does not expire is as it was, with its bytes. */
  ghost predicate Left(s: Sys, r: Sys, id: Data)
  {
    id in r.asm.active ==>
      id in s.asm.active && r.asm.active[id] == s.asm.active[id] && SameAt(s.disk.files, r.disk.files, s.asm.active[id].tmp)
  }

  lemma ExpireLeaves(s: Sys, x: Data, now: int, io: Io, id: Data)
    requires Inv(s)
    ensures Left(s, Expire(s, x, now, io), id)
  {
    hide AsmOk, IsTemp, PartPath, StatePath, Persist, Sum, Reserved, AgreeOutside;
    if x in s.asm.active {
      ActiveId(s, x);
    }
    if x != id && x in s.asm.active && id in s.asm.active {
      var t := s.asm.active[x];
      PersistTouches(s.disk, t, now, io);
      TmpIsOwn(s, t);
      OwnPrivate(s.asm.active, x, t.name, t.tmp);
      TmpElsewhere(s, x, t.name, Private(t.name, t.tmp), id);
      OutsideSame(s.disk.files, Persist(s.disk, t, now, io).files, Private(t.name, t.tmp), s.asm.active[id].tmp);
    }
  }

  lemma {:induction false} ExpireAllLeaves(s: Sys, order: seq<Data>, now: int, io: Data -> Io, id: Data)
    requires Inv(s)
    ensures Left(s, ExpireAll(s, order, now, io), id)
    decreases |order|
  {
    hide Inv, Expire;
    if order != [] {
      ExpireLeaves(s, order[0], now, io(order[0]), id);
      ExpireKeeps(s, order[0], now, io(order[0]));
      ExpireAllLeaves(Expire(s, order[0], now, io(order[0])), order[1..], now, io, id);
    }
  }

  lemma SweepLeaves(s: Sys, order: seq<Data>, listing: seq<Data>, now: int, ios: Data -> Io, id: Data)
    requires Inv(s)
    ensures Left(s, Sweep(s, order, listing, now, ios), id)
  {
    hide AsmOk, IsTemp, Reap, ExpireAll, AgreeOutside;
    var s1 := ExpireAll(s, order, now, ios);
    ExpireAllLeaves(s, order, now, ios, id);
    ExpireAllKeeps(s, order, now, ios);
    ForgetActive(s1.asm, now);
    ReapTouches(s1.disk, listing, now);
    if id in s1.asm.active {
      assert TempOk(s1.asm.active[id], s1.disk.files);
      TempNotReapable(s1.asm.active[id], s1.disk.files);
      OutsideSame(s1.disk.files, Reap(s1.disk, listing, now).files, Reapable(s1.disk.files), s1.asm.active[id].tmp);
    }
  }

  // ---- reaping ----

  /** The resume state of a file is not old enough to be reaped. */
  predicate Young(files: Dir, name: Data, now: int)
  {
    StatePath(name) in files && files[StatePath(name)].Sidecar? && files[StatePath(name)].mtime >= now - PARTIAL_RETENTION
  }

  lemma ReapOneKeeps(d: Disk, path: Data, now: int, name: Data)
    requires Young(d.files, name, now)
    ensures var e := ReapOne(d, path, now).files;
      && StatePath(name) in e && e[StatePath(name)] == d.files[StatePath(name)]
      && (PartPath(name) in d.files ==> PartPath(name) in e && e[PartPath(name)] == d.files[PartPath(name)])
  {
    hide StatePath, PartPath, STATE, PART, IsTemp;
    if HasSuffix(path, STATE) {
      var other := TrimSuffix(path, STATE);
      StatePathOf(path);
      var tmp := FreeTemp(d);
      NamesApart(tmp, name, other);
      NamesApart(tmp, other, name);
    }
  }

  /** A fresh state and its partial survive the reaping. */
  lemma {:induction false} ReapKeeps(d: Disk, listing: seq<Data>, now: int, name: Data)
    requires Young(d.files, name, now)
    ensures var e := Reap(d, listing, now).files;
      && StatePath(name) in e && e[StatePath(name)] == d.files[StatePath(name)]
      && (PartPath(name) in d.files ==> PartPath(name) in e && e[PartPath(name)] == d.files[PartPath(name)])
    decreases |listing|
  {
    hide StatePath, PartPath, ReapOne;
    if listing != [] {
      ReapOneKeeps(d, listing[0], now, name);
      ReapKeeps(ReapOne(d, listing[0], now), listing[1..], now, name);
    }
  }

  /** A sweep does not reap a young state, nor the partial beside it. */
  lemma SweepUntouched(s: Sys, order: seq<Data>, listing: seq<Data>, now: int, ios: Data -> Io, id: Data, name: Data)
    requires Inv(s) && Sole(s, id, name) && IsFinal(name) && Young(s.disk.files, name, now)
    requires id in s.asm.active ==> now - s.asm.active[id].lastSeen <= STALE_AFTER
    ensures Untouched(s, Sweep(s, order, listing, now, ios), id, name)
  {
    hide Inv, ExpireAll, Reap, Forget, SizeLimit, PartPath, StatePath;
    SweepSpares(s, order, listing, now, ios, id, name);
    ExpireAllUntouched(s, order, now, ios, id, name);
    var s1 := ExpireAll(s, order, now, ios);
    ReapKeeps(s1.disk, listing, now, name);
    PartAfterReap(s1.disk, listing, now, name);
  }

  lemma PartAfterReap(d: Disk, listing: seq<Data>, now: int, name: Data)
    ensures SameOrGone(d.files, Reap(d, listing, now).files, PartPath(name))
  {
    hide Reap, PartPath;
    ReapTouches(d, listing, now);
  }
}
