/** Which names each operation of the catcher touches, at every instant a crash could stop it. */
module Frames {
  import opened Bytes
  import opened Landing
  import opened Machine

  ghost predicate AgreeOutside(f: Dir, g: Dir, names: set<Data>)
  {
    forall p | p !in names :: (p in f <==> p in g) && (p in f && p in g ==> f[p] == g[p])
  }

  /** From d to e only the given names change, in every directory state on the way. */
  ghost predicate Touches(d: Disk, e: Disk, names: set<Data>)
  {
    && d.past <= e.past
    && AgreeOutside(d.files, e.files, names)
    && forall k | |d.past| <= k < |e.past| :: AgreeOutside(d.files, e.past[k], names)
  }

  lemma TouchesMore(d: Disk, e: Disk, names: set<Data>, more: set<Data>)
    requires Touches(d, e, names) && names <= more
    ensures Touches(d, e, more)
  {
    forall k | |d.past| <= k < |e.past| ensures AgreeOutside(d.files, e.past[k], more) {
      assert AgreeOutside(d.files, e.past[k], names);
    }
  }

  lemma TouchesTrans(a: Disk, b: Disk, c: Disk, names: set<Data>)
    requires Touches(a, b, names) && Touches(b, c, names)
    ensures Touches(a, c, names)
  {
    forall k | |a.past| <= k < |c.past| ensures AgreeOutside(a.files, c.past[k], names) {
      if k < |b.past| {
        assert c.past[k] == b.past[k];
        assert AgreeOutside(a.files, b.past[k], names);
      } else {
        assert AgreeOutside(b.files, c.past[k], names);
      }
    }
  }

  lemma NextTouches(d: Disk, files: Dir, names: set<Data>)
    requires AgreeOutside(d.files, files, names)
    ensures Touches(d, Next(d, files), names)
  {
  }

  lemma RemoveTouches(d: Disk, path: Data)
    ensures Touches(d, Remove(d, path), {path})
  {
  }

  lemma WriteTouches(d: Disk, path: Data, off: nat, data: Data)
    ensures Touches(d, WriteAt(d, path, off, data), {path})
  {
  }

  lemma RenameTouches(d: Disk, src: Data, dst: Data)
    ensures Touches(d, Rename(d, src, dst), {src, dst})
  {
  }

  /** The names belonging to one file name: its partial, its state, and a temporary file. */
  ghost function Private(name: Data, tmp: Data): set<Data>
  {
    {PartPath(name), StatePath(name), tmp}
  }

  lemma {:induction false} WriteShardsTouches(d: Disk, path: Data, off: nat, shards: seq<Data>, remaining: nat, writes: nat)
    ensures Touches(d, WriteShards(d, path, off, shards, remaining, writes).0, {path})
    decreases |shards|
  {
    if shards == [] || remaining == 0 || writes == 0 {
    } else {
      var n := Min(|shards[0]|, remaining);
      var d1 := WriteAt(d, path, off, shards[0][..n]);
      WriteTouches(d, path, off, shards[0][..n]);
      WriteShardsTouches(d1, path, off + n, shards[1..], remaining - n, writes - 1);
      TouchesTrans(d, d1, WriteShards(d, path, off, shards, remaining, writes).0, {path});
    }
  }

  lemma RemovePartialTouches(d: Disk, name: Data, names: set<Data>)
    requires PartPath(name) in names && StatePath(name) in names
    ensures Touches(d, RemovePartial(d, name), names)
  {
    hide Remove, PartPath, StatePath;
    var d1 := Remove(d, PartPath(name));
    RemoveTouches(d, PartPath(name));
    RemoveTouches(d1, StatePath(name));
    TouchesMore(d, d1, {PartPath(name)}, names);
    TouchesMore(d1, RemovePartial(d, name), {StatePath(name)}, names);
    TouchesTrans(d, d1, RemovePartial(d, name), names);
  }

  lemma RemoveThen(d: Disk, e: Disk, path: Data, names: set<Data>)
    requires Touches(d, e, names) && path in names
    ensures Touches(d, Remove(e, path), names)
  {
    RemoveTouches(e, path);
    TouchesMore(e, Remove(e, path), {path}, names);
    TouchesTrans(d, e, Remove(e, path), names);
  }

  /** Keeping or dropping an expired transfer's bytes involves only its private names. */
  lemma PersistTouches(d: Disk, t: Transfer, now: int, io: Io)
    ensures Touches(d, Persist(d, t, now, io), Private(t.name, t.tmp))
  {
    hide Remove, PartPath, StatePath, Rename, RemovePartial, StateOf, BetterExists;
    var names := Private(t.name, t.tmp);
    RemoveThen(d, d, t.tmp, names);
    RemovePartialTouches(d, t.name, names);
    RemoveThen(d, RemovePartial(d, t.name), t.tmp, names);
    var d1 := PutSidecar(d, StatePath(t.name), StateOf(t), now);
    NextTouches(d, d1.files, names);
    RemovePartialTouches(d1, t.name, names);
    TouchesTrans(d, d1, RemovePartial(d1, t.name), names);
    RemoveThen(d, RemovePartial(d1, t.name), t.tmp, names);
    var d2 := Rename(d1, t.tmp, PartPath(t.name));
    RenameTouches(d1, t.tmp, PartPath(t.name));
    TouchesMore(d1, d2, {t.tmp, PartPath(t.name)}, names);
    TouchesTrans(d, d1, d2, names);
  }

  /** Opening a transfer's file involves the private names of its file name and a temporary name that
      was free. */
  lemma AdoptTouches(d: Disk, name: Data, io: Io) returns (tmp: Data)
    ensures IsTemp(tmp) && tmp !in d.files
    ensures Touches(d, Adopt(d, name, io).0, Private(name, tmp))
    ensures Adopt(d, name, io).1.Some? ==> Adopt(d, name, io).1.value == tmp
  {
    hide Remove, PartPath, StatePath, Rename, IsTemp;
    match CreateTemp(d, name, io.adoptTemp)
    case None =>
      tmp := FreeTemp(d);
    case Some((d1, path)) =>
      tmp := path;
      var names := Private(name, tmp);
      TempIsTemp(name, io.adoptTemp.value);
      NextTouches(d, d1.files, names);
      RemoveThen(d, d1, path, names);
      var d2 := Rename(d1, PartPath(name), path);
      RenameTouches(d1, PartPath(name), path);
      TouchesMore(d1, d2, {PartPath(name), path}, names);
      TouchesTrans(d, d1, d2, names);
      RemoveThen(d, d2, StatePath(name), names);
      RemoveThen(d, Remove(d2, StatePath(name)), path, names);
  }

  lemma TempIsTemp(name: Data, rnd: Data)
    requires Digits(rnd)
    ensures IsTemp(TempPath(name, rnd))
  {
  }

  /** There is always a free temporary name. */
  lemma FreeTemp(d: Disk) returns (path: Data)
    ensures IsTemp(path) && path !in d.files
  {
    var n := LongerThan(d.files.Keys);
    var rnd := seq(n + 1, _ => 0x30);
    path := TempPath([], rnd);
    TempIsTemp([], rnd);
  }

  lemma {:induction false} LongerThan(names: set<Data>) returns (n: nat)
    ensures forall p | p in names :: |p| <= n
    decreases |names|
  {
    if names == {} {
      n := 0;
    } else {
      var p :| p in names;
      n := LongerThan(names - {p});
      n := Max(n, |p|);
      assert forall q | q in names :: q == p || q in names - {p};
    }
  }
}
