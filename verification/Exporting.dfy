/** The low side's exports: bundles that leave out what was forwarded before, and the store that remembers it. */
module Exporting {
  import opened Bytes
  import opened Splitting

  datatype Meta = Meta(key: string, sha: string)

  /** A bundle: a content part, or one of an ecosystem with its metadata. */
  datatype Bundle = Bundle(part: bool, files: seq<File>, metadata: seq<Meta>)

  /** How a durable step ends: done, failed or cut short by a crash; the latter two with or without effect. */
  datatype Fate = Done | Failed(applied: bool) | Died(applied: bool)

  predicate Applied(f: Fate) { f.Done? || f.applied }

  /** mutableRepoPath, and what becomes of each durable step. */
  datatype World = World(varies: string -> bool, fate: nat -> Fate)

  datatype Result = Exported | Skipped | Refused | Crashed

  // ---- what the receiver makes of the bundles ----

  /** What a receiver holds under each path after some files. */
  function Unpack(held: map<string, string>, files: seq<File>): map<string, string>
  {
    if files == [] then held
    else
      var before, f := Unpack(held, files[..|files| - 1]), files[|files| - 1];
      if f.prior then before else before[f.path := f.sha]
  }

  /** What a receiver holds after every bundle written, in order. */
  function Received(log: seq<Bundle>): map<string, string>
  {
    if log == [] then map[] else Unpack(Received(log[..|log| - 1]), log[|log| - 1].files)
  }

  function Publish(known: map<string, string>, metadata: seq<Meta>): map<string, string>
  {
    if metadata == [] then known
    else
      var m := metadata[|metadata| - 1];
      Publish(known, metadata[..|metadata| - 1])[m.key := m.sha]
  }

  /** The metadata a receiver knows. */
  function Published(log: seq<Bundle>): map<string, string>
  {
    if log == [] then map[] else Publish(Published(log[..|log| - 1]), log[|log| - 1].metadata)
  }

  predicate Packs(b: Bundle, id: Id) { exists i :: 0 <= i < |b.files| && !b.files[i].prior && IdOf(b.files[i]) == id }

  predicate Names(b: Bundle, id: Id) { exists i :: 0 <= i < |b.files| && IdOf(b.files[i]) == id }

  ghost predicate Delivered(log: seq<Bundle>, id: Id) { exists i :: 0 <= i < |log| && Packs(log[i], id) }

  /** A receiver has the file: as last delivered if it is replaceable. */
  ghost predicate Has(w: World, log: seq<Bundle>, id: Id)
  {
    Delivered(log, id) && (w.varies(id.path) ==> id.path in Received(log) && Received(log)[id.path] == id.sha)
  }

  /** An ecosystem bundle at or after position i names the file. */
  ghost predicate NamedSince(log: seq<Bundle>, i: nat, id: Id)
  {
    exists j :: i <= j < |log| && !log[j].part && Names(log[j], id)
  }

  ghost predicate DistinctPaths(files: seq<File>)
  {
    forall i, j | 0 <= i < j < |files| :: files[i].path != files[j].path
  }

  /** Every reference of a bundle is to a file the receiver has. */
  ghost predicate Truthful(w: World, log: seq<Bundle>, b: Bundle)
  {
    forall f | f in b.files && f.prior :: Has(w, log, IdOf(f))
  }

  ghost predicate AllTruthful(w: World, log: seq<Bundle>)
  {
    forall i | 0 <= i < |log| :: Truthful(w, log[..i], log[i])
  }

  // ---- what the store says of them ----

  datatype Tables = Tables(
    forwarded: set<Id>, latest: map<string, string>, metadata: map<string, string>, pending: set<Id>)

  ghost predicate StoreOk(w: World, t: Tables, log: seq<Bundle>)
  {
    && (forall id | id in t.forwarded :: id.path != "" && Delivered(log, id))
    && (forall p | p in t.latest :: w.varies(p) && p in Received(log) && Received(log)[p] == t.latest[p])
    && (forall k | k in t.metadata :: k in Published(log) && Published(log)[k] == t.metadata[k])
    && AllPending(t.pending, log)
  }

  /** A file delivered by a content part is pending until an ecosystem bundle names it. */
  ghost predicate AllPending(pending: set<Id>, log: seq<Bundle>)
  {
    forall i, id | 0 <= i < |log| && log[i].part && Packs(log[i], id) :: id in pending || NamedSince(log, i, id)
  }

  /** IsForwarded. */
  predicate Hit(w: World, t: Tables, id: Id)
  {
    if w.varies(id.path) then id.path in t.latest && t.latest[id.path] == id.sha
    else id in t.forwarded || Id("", id.sha) in t.forwarded
  }

  /** The receiver has the files, some ecosystem bundle names each, and it knows the metadata. */
  ghost predicate AllThere(w: World, log: seq<Bundle>, files: seq<File>, metadata: seq<Meta>)
  {
    && (forall f | f in files :: Has(w, log, IdOf(f)) && NamedSince(log, 0, IdOf(f)))
    && forall k | k in Publish(map[], metadata) :: k in Published(log) && Published(log)[k] == Publish(map[], metadata)[k]
  }

  // ---- one bundle more ----

  /** A bundle that may be written: its references are true, and what a part packs is pending. */
  ghost predicate Ready(w: World, t: Tables, log: seq<Bundle>, b: Bundle)
  {
    && Truthful(w, log, b) && DistinctPaths(b.files) && (forall f | f in b.files :: f.path != "")
    && (b.part ==> b.metadata == [] && forall f | f in b.files && !f.prior :: IdOf(f) in t.pending)
  }

  function Replaced(w: World, files: seq<File>): set<string>
  {
    set f | f in files && !f.prior && w.varies(f.path) :: f.path
  }

  function Keys(metadata: seq<Meta>): set<string> { set m | m in metadata :: m.key }

  /** Record's effect on the latest contents of replaceable paths. */
  function Latest(w: World, latest: map<string, string>, files: seq<File>): map<string, string>
  {
    if files == [] then latest
    else
      var before, f := Latest(w, latest, files[..|files| - 1]), files[|files| - 1];
      if !f.prior && w.varies(f.path) then before[f.path := f.sha] else before
  }

  function Recorded(w: World, t: Tables, files: seq<File>): Tables
  {
    t.(forwarded := t.forwarded + (set f | f in files :: IdOf(f)), latest := Latest(w, t.latest, files))
  }

  /** The store without what a bundle is about to replace. */
  function Invalidated(w: World, t: Tables, b: Bundle): Tables
  {
    t.(latest := t.latest - Replaced(w, b.files), metadata := t.metadata - Keys(b.metadata))
  }

  lemma LastOf(log: seq<Bundle>, b: Bundle)
    ensures var now := log + [b];
      Received(now) == Unpack(Received(log), b.files) && Published(now) == Publish(Published(log), b.metadata)
  {
    assert (log + [b])[..|log|] == log;
  }

  /** A path that files do not replace keeps what was there. */
  lemma {:induction false} UnpackKeeps(held: map<string, string>, files: seq<File>, p: string)
    requires forall f | f in files :: f.prior || f.path != p
    ensures p in Unpack(held, files) <==> p in held
    ensures p in held ==> Unpack(held, files)[p] == held[p]
  {
    if files != [] {
      UnpackKeeps(held, files[..|files| - 1], p);
    }
  }

  /** A packed file is what is held under its path, no other file having the path. */
  lemma {:induction false} UnpackSets(held: map<string, string>, files: seq<File>, f: File)
    requires f in files && !f.prior && DistinctPaths(files)
    ensures f.path in Unpack(held, files) && Unpack(held, files)[f.path] == f.sha
  {
    var n := |files| - 1;
    if files[n] != f {
      assert f in files[..n];
      var i :| 0 <= i < n && files[i] == f;
      UnpackSets(held, files[..n], f);
    }
  }

  lemma {:induction false} PublishKeeps(known: map<string, string>, metadata: seq<Meta>, k: string)
    requires forall m | m in metadata :: m.key != k
    ensures k in Publish(known, metadata) <==> k in known
    ensures k in known ==> Publish(known, metadata)[k] == known[k]
  {
    if metadata != [] {
      PublishKeeps(known, metadata[..|metadata| - 1], k);
    }
  }

  lemma {:induction false} PublishAgrees(known: map<string, string>, other: map<string, string>, metadata: seq<Meta>)
    requires forall k | k in known :: k in other && other[k] == known[k]
    ensures forall k | k in Publish(known, metadata) :: k in Publish(other, metadata) && Publish(other, metadata)[k] == Publish(known, metadata)[k]
  {
    if metadata != [] {
      PublishAgrees(known, other, metadata[..|metadata| - 1]);
    }
  }

  lemma {:induction false} LatestAgrees(w: World, held: map<string, string>, latest: map<string, string>, files: seq<File>)
    requires forall p | p in latest :: w.varies(p) && p in held && held[p] == latest[p]
    ensures var now := Latest(w, latest, files);
      forall p | p in now :: w.varies(p) && p in Unpack(held, files) && Unpack(held, files)[p] == now[p]
  {
    if files != [] {
      LatestAgrees(w, held, latest, files[..|files| - 1]);
    }
  }

  /** What was delivered or named stays so. */
  lemma Longer(log: seq<Bundle>, b: Bundle)
    ensures forall id | Delivered(log, id) :: Delivered(log + [b], id)
    ensures forall i: nat, id | NamedSince(log, i, id) :: NamedSince(log + [b], i, id)
    ensures forall id | Packs(b, id) :: Delivered(log + [b], id)
    ensures !b.part ==> forall id, i: nat | Names(b, id) && i <= |log| :: NamedSince(log + [b], i, id)
  {
    var now := log + [b];
    forall id | Delivered(log, id) ensures Delivered(now, id) {
      var i :| 0 <= i < |log| && Packs(log[i], id);
      assert now[i] == log[i];
    }
    forall i: nat, id | NamedSince(log, i, id) ensures NamedSince(now, i, id) {
      var j :| i <= j < |log| && !log[j].part && Names(log[j], id);
      assert now[j] == log[j];
    }
    assert now[|log|] == b;
  }

  lemma InvalidatedOk(w: World, t: Tables, log: seq<Bundle>, b: Bundle)
    requires StoreOk(w, t, log)
    ensures StoreOk(w, Invalidated(w, t, b), log) && StoreOk(w, t.(latest := t.latest - Replaced(w, b.files)), log)
  {
    hide Delivered, NamedSince, Packs, Received, Published;
  }

  lemma StillPending(t: Tables, log: seq<Bundle>, b: Bundle)
    requires AllPending(t.pending, log)
    requires b.part ==> forall f | f in b.files && !f.prior :: IdOf(f) in t.pending
    ensures AllPending(t.pending, log + [b])
  {
    var now := log + [b];
    Longer(log, b);
    forall i, id | 0 <= i < |now| && now[i].part && Packs(now[i], id) ensures id in t.pending || NamedSince(now, i, id) {
      if i < |log| {
        assert now[i] == log[i];
      } else {
        var j :| 0 <= j < |b.files| && !b.files[j].prior && IdOf(b.files[j]) == id;
        assert b.files[j] in b.files;
      }
    }
  }

  /** Once the store has forgotten what a bundle replaces, writing the bundle leaves it right. */
  lemma WrittenOk(w: World, t: Tables, log: seq<Bundle>, b: Bundle)
    requires StoreOk(w, t, log) && Ready(w, t, log, b) && AllTruthful(w, log)
    requires t == Invalidated(w, t, b)
    ensures StoreOk(w, t, log + [b]) && AllTruthful(w, log + [b])
  {
    hide Delivered, Truthful, AllPending, Ready, Invalidated, Received, Published;
    Longer(log, b);
    ReadyPending(w, t, log, b);
    StillPending(t, log, b);
    LatestKept(w, t, log, b);
    MetadataKept(w, t, log, b);
    AllTruthfulMore(w, log, b);
  }

  lemma LatestKept(w: World, t: Tables, log: seq<Bundle>, b: Bundle)
    requires StoreOk(w, t, log) && t == Invalidated(w, t, b)
    ensures forall p | p in t.latest :: p in Received(log + [b]) && Received(log + [b])[p] == t.latest[p]
  {
    hide Delivered, AllPending, Received, Published;
    LastOf(log, b);
    forall p | p in t.latest ensures p in Received(log + [b]) && Received(log + [b])[p] == t.latest[p] {
      assert p !in Replaced(w, b.files);
      UnpackKeeps(Received(log), b.files, p);
    }
  }

  lemma MetadataKept(w: World, t: Tables, log: seq<Bundle>, b: Bundle)
    requires StoreOk(w, t, log) && t == Invalidated(w, t, b)
    ensures forall k | k in t.metadata :: k in Published(log + [b]) && Published(log + [b])[k] == t.metadata[k]
  {
    hide Delivered, AllPending, Received, Published;
    LastOf(log, b);
    forall k | k in t.metadata ensures k in Published(log + [b]) && Published(log + [b])[k] == t.metadata[k] {
      assert k !in Keys(b.metadata);
      PublishKeeps(Published(log), b.metadata, k);
    }
  }

  lemma ReadyPending(w: World, t: Tables, log: seq<Bundle>, b: Bundle)
    requires StoreOk(w, t, log) && Ready(w, t, log, b)
    ensures AllPending(t.pending, log)
    ensures b.part ==> forall f | f in b.files && !f.prior :: IdOf(f) in t.pending
    ensures Truthful(w, log, b)
  {
  }

  lemma AllTruthfulMore(w: World, log: seq<Bundle>, b: Bundle)
    requires AllTruthful(w, log) && Truthful(w, log, b)
    ensures AllTruthful(w, log + [b])
  {
    hide Truthful;
    var now := log + [b];
    forall i | 0 <= i < |now| ensures Truthful(w, now[..i], now[i]) {
      if i < |log| {
        assert now[..i] == log[..i] && now[i] == log[i];
      } else {
        assert now[..i] == log;
      }
    }
  }

  /** Recording the files of the last bundle leaves the store right. */
  lemma RecordedOk(w: World, t: Tables, log: seq<Bundle>, b: Bundle)
    requires StoreOk(w, t, log) && StoreOk(w, t, log + [b]) && Ready(w, t, log, b)
    ensures StoreOk(w, Recorded(w, t, b.files), log + [b])
  {
    hide Delivered, NamedSince, AllPending, Received, Published, Packs;
    LastOf(log, b);
    Longer(log, b);
    LatestAgrees(w, Received(log), t.latest, b.files);
    forall f | f in b.files ensures f.path != "" && Delivered(log + [b], IdOf(f)) {
      if !f.prior {
        PacksOwn(b, f);
      }
    }
  }

  lemma PacksOwn(b: Bundle, f: File)
    requires f in b.files
    ensures Names(b, IdOf(f)) && (!f.prior ==> Packs(b, IdOf(f)))
  {
    var i :| 0 <= i < |b.files| && b.files[i] == f;
  }

  lemma PublishedOk(w: World, t: Tables, log: seq<Bundle>, b: Bundle, known: map<string, string>)
    requires StoreOk(w, t, log + [b])
    requires forall k | k in known :: k in Published(log) && Published(log)[k] == known[k]
    ensures StoreOk(w, t.(metadata := Publish(known, b.metadata)), log + [b])
  {
    hide Delivered, AllPending, Received, Published;
    LastOf(log, b);
    PublishAgrees(known, Published(log), b.metadata);
  }

  /** What the receiver has, it keeps, unless a bundle replaces it. */
  lemma HasMore(w: World, log: seq<Bundle>, b: Bundle, id: Id)
    requires Has(w, log, id) && forall f | f in b.files && f.path == id.path :: f.prior || f.sha == id.sha
    requires DistinctPaths(b.files)
    ensures Has(w, log + [b], id)
  {
    hide Delivered, Packs;
    Longer(log, b);
    LastOf(log, b);
    if f :| f in b.files && !f.prior && f.path == id.path {
      UnpackSets(Received(log), b.files, f);
    } else {
      UnpackKeeps(Received(log), b.files, id.path);
    }
  }

  lemma HasPacked(w: World, log: seq<Bundle>, b: Bundle, f: File)
    requires f in b.files && !f.prior && DistinctPaths(b.files)
    ensures Has(w, log + [b], IdOf(f))
  {
    hide Delivered, Packs;
    Longer(log, b);
    LastOf(log, b);
    PacksOwn(b, f);
    UnpackSets(Received(log), b.files, f);
  }

  lemma {:induction false} UnpackFrom(held: map<string, string>, files: seq<File>, p: string)
    requires p in Unpack(held, files)
    ensures (p in held && Unpack(held, files)[p] == held[p]) ||
      exists f :: f in files && !f.prior && IdOf(f) == Id(p, Unpack(held, files)[p])
  {
    if files != [] {
      var n := |files| - 1;
      if files[n].prior || files[n].path != p {
        UnpackFrom(held, files[..n], p);
      } else {
        assert files[n] in files && IdOf(files[n]) == Id(p, Unpack(held, files)[p]);
      }
    }
  }

  /** Whatever a receiver holds was delivered. */
  lemma {:induction false} HeldDelivered(log: seq<Bundle>, p: string)
    requires p in Received(log)
    ensures Delivered(log, Id(p, Received(log)[p]))
  {
    var n := |log| - 1;
    var b, before, id := log[n], log[..n], Id(p, Received(log)[p]);
    assert log == before + [b];
    Longer(before, b);
    UnpackFrom(Received(before), b.files, p);
    if f :| f in b.files && !f.prior && IdOf(f) == id {
      PacksOwn(b, f);
    } else {
      HeldDelivered(before, p);
    }
  }

  /** A hit is true. */
  lemma HitHas(w: World, t: Tables, log: seq<Bundle>, id: Id)
    requires StoreOk(w, t, log) && Hit(w, t, id)
    ensures Has(w, log, id)
  {
    hide Delivered, AllPending, Received;
    if w.varies(id.path) {
      HeldDelivered(log, id.path);
    }
  }

  // ---- what an export keeps ----

  /** Files that may be exported: each under its own path, and the references among them true. */
  ghost predicate Exportable(w: World, log: seq<Bundle>, files: seq<File>)
  {
    && DistinctPaths(files) && (forall f | f in files :: f.path != "")
    && forall f | f in files && f.prior :: Has(w, log, IdOf(f))
  }

  /** The bundles from position i on are within the budget, or pack nothing. */
  ghost predicate Fit(log: seq<Bundle>, i: nat, budget: nat)
  {
    forall k | i <= k < |log| :: Packed(log[k].files) <= budget || Packed(log[k].files) == BASE
  }

  /** A content part packs a chunk of the files, all of it, within the budget. */
  lemma PartOf(w: World, log: seq<Bundle>, files: seq<File>, budget: nat, chunks: seq<seq<nat>>, k: nat)
    requires Exportable(w, log, files) && IsSplit(files, budget, chunks) && k < |chunks|
    ensures Within(files, chunks[k]) && Fits(files, chunks[k], budget)
    ensures var part := Part(files, chunks[k]);
      && Exportable(w, log, part) && (forall f | f in part :: !f.prior) && Packed(part) <= budget
  {
    var chunk := chunks[k];
    assert Fits(files, chunk, budget);
    ChunkApart(chunks, k);
    forall i | 0 <= i < |chunk| ensures chunk[i] < |files| && !files[chunk[i]].prior {
      InFlat(chunks, k, chunk[i]);
    }
    PartPacked(files, chunk);
  }

  /** After a part every file marked so far is with the receiver. */
  lemma PartDelivered(w: World, log: seq<Bundle>, b: Bundle, files: seq<File>, now: seq<File>, chunk: seq<nat>)
    requires DistinctPaths(files) && Within(files, chunk) && b.files == Part(files, chunk) && DistinctPaths(b.files)
    requires (forall f | f in b.files :: !f.prior) && |now| == |files| && forall i | 0 <= i < |files| :: IdOf(now[i]) == IdOf(files[i])
    requires forall f | f in now && f.prior :: Has(w, log, IdOf(f))
    ensures forall f | f in Marked(now, chunk) && f.prior :: Has(w, log + [b], IdOf(f))
  {
    hide Has;
    var marked := Marked(now, chunk);
    forall i | 0 <= i < |marked| && marked[i].prior ensures Has(w, log + [b], IdOf(marked[i])) {
      if i in chunk {
        var j :| 0 <= j < |chunk| && chunk[j] == i;
        assert b.files[j] == files[i] && b.files[j] in b.files;
        HasPacked(w, log, b, b.files[j]);
      } else {
        assert now[i] in now;
        NoClash(files, chunk, i);
        HasMore(w, log, b, IdOf(now[i]));
      }
    }
  }

  lemma NoClash(files: seq<File>, chunk: seq<nat>, i: nat)
    requires DistinctPaths(files) && Within(files, chunk) && i < |files|
    ensures forall f | f in Part(files, chunk) && f.path == files[i].path :: f.sha == files[i].sha
  {
    forall f | f in Part(files, chunk) && f.path == files[i].path ensures f.sha == files[i].sha {
      var j :| 0 <= j < |chunk| && files[chunk[j]] == f;
      assert chunk[j] < i || i < chunk[j] || chunk[j] == i;
    }
  }

  lemma PendingMore(w: World, t: Tables, log: seq<Bundle>, more: set<Id>)
    requires StoreOk(w, t, log)
    ensures StoreOk(w, t.(pending := t.pending + more), log)
  {
    hide Delivered, NamedSince, Received, Published, Packs;
  }

  /** What an ecosystem bundle names need no longer be pending. */
  lemma ClearedOk(w: World, t: Tables, log: seq<Bundle>, b: Bundle)
    requires StoreOk(w, t, log + [b]) && !b.part
    ensures StoreOk(w, t.(pending := t.pending - (set f | f in b.files :: IdOf(f))), log + [b])
  {
    hide Delivered, NamedSince, Received, Published, Packs, Names;
    var now, ids := log + [b], set f | f in b.files :: IdOf(f);
    Longer(log, b);
    forall i, id | 0 <= i < |now| && now[i].part && Packs(now[i], id) && id in ids ensures NamedSince(now, i, id) {
      var f :| f in b.files && IdOf(f) == id;
      PacksOwn(b, f);
      assert i <= |log|;
    }
  }

  /** requirePriorFile: the receiver has something under the path, and the right thing if it is replaceable. */
  ghost predicate Accepted(w: World, held: map<string, string>, b: Bundle)
  {
    forall f | f in b.files && f.prior :: f.path in held && (w.varies(f.path) ==> held[f.path] == f.sha)
  }

  lemma {:induction false} DeliveredHeld(log: seq<Bundle>, id: Id)
    requires Delivered(log, id)
    ensures id.path in Received(log)
  {
    var i :| 0 <= i < |log| && Packs(log[i], id);
    var n := |log| - 1;
    var b := log[n];
    if i < n {
      assert log[..n][i] == log[i];
      DeliveredHeld(log[..n], id);
      UnpackMore(Received(log[..n]), b.files, id.path);
    } else {
      var k :| 0 <= k < |b.files| && !b.files[k].prior && IdOf(b.files[k]) == id;
      assert b.files[k] in b.files;
      UnpackMore(Received(log[..n]), b.files, id.path);
    }
  }

  lemma {:induction false} UnpackMore(held: map<string, string>, files: seq<File>, p: string)
    ensures p in held || (exists f :: f in files && !f.prior && f.path == p) ==> p in Unpack(held, files)
  {
    if files != [] {
      var n := |files| - 1;
      UnpackMore(held, files[..n], p);
      forall f | f in files && f != files[n] ensures f in files[..n] {
      }
    }
  }

  /** A receiver that takes the bundles in order refuses none for a reference it cannot resolve. */
  lemma NoReferenceDangles(w: World, log: seq<Bundle>, i: nat)
    requires AllTruthful(w, log) && i < |log|
    ensures Accepted(w, Received(log[..i]), log[i])
  {
    hide Delivered, Received;
    assert Truthful(w, log[..i], log[i]);
    forall f | f in log[i].files && f.prior ensures f.path in Received(log[..i]) {
      DeliveredHeld(log[..i], IdOf(f));
    }
  }

  /** What is delivered and not pending has been named. */
  lemma Settled(w: World, t: Tables, log: seq<Bundle>, id: Id)
    requires StoreOk(w, t, log) && Delivered(log, id) && id !in t.pending
    ensures NamedSince(log, 0, id)
  {
    var i :| 0 <= i < |log| && Packs(log[i], id);
    if log[i].part {
      var j :| i <= j < |log| && !log[j].part && Names(log[j], id);
    } else {
      assert Names(log[i], id);
    }
  }

  lemma {:induction false} SameMetadata(known: map<string, string>, metadata: seq<Meta>)
    requires forall m | m in metadata :: m.key in known && known[m.key] == m.sha
    ensures forall k | k in Publish(map[], metadata) :: k in known && known[k] == Publish(map[], metadata)[k]
  {
    if metadata != [] {
      SameMetadata(known, metadata[..|metadata| - 1]);
    }
  }

  /** Nothing to send: the store knows all files, none pending, and all metadata. */
  ghost predicate NothingNew(w: World, t: Tables, files: seq<File>, metadata: seq<Meta>)
  {
    && (forall f | f in files :: (f.prior || Hit(w, t, IdOf(f))) && IdOf(f) !in t.pending)
    && forall m | m in metadata :: m.key in t.metadata && t.metadata[m.key] == m.sha
  }

  /** Then skipping the export is right: everything is with the receiver. */
  lemma SkipIsRight(w: World, t: Tables, log: seq<Bundle>, files: seq<File>, metadata: seq<Meta>)
    requires StoreOk(w, t, log) && NothingNew(w, t, files, metadata)
    requires forall f | f in files && f.prior :: Has(w, log, IdOf(f))
    ensures AllThere(w, log, files, metadata)
  {
    hide Hit, NamedSince, Received, Published, AllPending;
    forall f | f in files ensures Has(w, log, IdOf(f)) && NamedSince(log, 0, IdOf(f)) {
      if !f.prior {
        HitHas(w, t, log, IdOf(f));
      }
      Settled(w, t, log, IdOf(f));
    }
    SameMetadata(t.metadata, metadata);
  }

  /** And so is an ecosystem bundle that names all files. */
  lemma ExportIsRight(w: World, log: seq<Bundle>, b: Bundle, files: seq<File>)
    requires Exportable(w, log, b.files) && !b.part
    requires |files| == |b.files| && forall i | 0 <= i < |files| :: IdOf(files[i]) == IdOf(b.files[i])
    ensures AllThere(w, log + [b], files, b.metadata)
  {
    hide Has, NamedSince, Received, Published, Packs, Names;
    Longer(log, b);
    LastOf(log, b);
    PublishAgrees(map[], Published(log), b.metadata);
    forall i | 0 <= i < |files| ensures Has(w, log + [b], IdOf(files[i])) && NamedSince(log + [b], 0, IdOf(files[i])) {
      var f := b.files[i];
      assert f in b.files;
      PacksOwn(b, f);
      if f.prior {
        OwnPath(b.files, f);
        HasMore(w, log, b, IdOf(f));
      } else {
        HasPacked(w, log, b, f);
      }
    }
  }

  lemma OwnPath(files: seq<File>, f: File)
    requires DistinctPaths(files) && f in files
    ensures forall g | g in files && g.path == f.path :: g == f
  {
    var i :| 0 <= i < |files| && files[i] == f;
    forall g | g in files && g.path == f.path ensures g == f {
      var j :| 0 <= j < |files| && files[j] == g;
      assert i < j || j < i || i == j;
    }
  }

  lemma StillReady(w: World, t0: Tables, t: Tables, log: seq<Bundle>, b: Bundle)
    requires StoreOk(w, t0, log) && Ready(w, t0, log, b) && t == Invalidated(w, t0, b)
    ensures StoreOk(w, t, log) && Ready(w, t, log, b) && t == Invalidated(w, t, b)
  {
    hide StoreOk, Truthful;
    InvalidatedOk(w, t0, log, b);
  }

  lemma MetadataWithin(w: World, t: Tables, log: seq<Bundle>)
    requires StoreOk(w, t, log)
    ensures forall k | k in t.metadata :: k in Published(log) && Published(log)[k] == t.metadata[k]
  {
  }

  lemma NothingWritten(log: seq<Bundle>, budget: nat)
    ensures Fit(log, |log|, budget)
  {
  }

  lemma FitMore(log: seq<Bundle>, i: nat, budget: nat, b: Bundle)
    requires Fit(log, i, budget) && (Packed(b.files) <= budget || Packed(b.files) == BASE)
    ensures Fit(log + [b], i, budget)
  {
    hide Packed;
  }

  lemma PartReady(w: World, t: Tables, log: seq<Bundle>, b: Bundle)
    requires b.part && b.metadata == [] && Exportable(w, log, b.files) && forall f | f in b.files :: IdOf(f) in t.pending
    ensures Ready(w, t, log, b)
  {
    hide Has;
  }

  lemma BundleReady(w: World, t: Tables, log: seq<Bundle>, b: Bundle)
    requires !b.part && Exportable(w, log, b.files)
    ensures Ready(w, t, log, b)
  {
    hide Has;
  }

  lemma AfterPart(w: World, log: seq<Bundle>, b: Bundle, files: seq<File>, now: seq<File>, chunks: seq<seq<nat>>, k: nat)
    requires k < |chunks| && Within(files, chunks[k]) && b.files == Part(files, chunks[k]) && now == Marked(files, Flat(chunks[..k]))
    requires Exportable(w, log, files) && Exportable(w, log, now) && Exportable(w, log, b.files) && forall f | f in b.files :: !f.prior
    ensures Exportable(w, log + [b], files) && Exportable(w, log + [b], Marked(now, chunks[k]))
    ensures Marked(now, chunks[k]) == Marked(files, Flat(chunks[..k + 1]))
  {
    hide Has;
    PartDelivered(w, log, b, files, now, chunks[k]);
    PartDelivered(w, log, b, files, files, chunks[k]);
    assert chunks[..k + 1][..k] == chunks[..k];
    forall f | f in files && f.prior ensures Has(w, log + [b], IdOf(f)) {
      var i :| 0 <= i < |files| && files[i] == f;
      assert Marked(files, chunks[k])[i] == f;
    }
  }

  /** The files after the look at the store, which may have failed. */
  ghost predicate Looked(w: World, t: Tables, files: seq<File>, now: seq<File>, looked: bool)
  {
    && SameIds(files, now)
    && (forall i | 0 <= i < |files| :: now[i].prior == (files[i].prior || (looked && Hit(w, t, IdOf(files[i])))))
    && forall i | 0 <= i < |files| :: now[i].size == files[i].size
  }

  lemma AsGiven(w: World, t: Tables, files: seq<File>)
    ensures Looked(w, t, files, files, false)
  {
  }

  lemma FlagsAre(w: World, t: Tables, log: seq<Bundle>, files: seq<File>, now: seq<File>, looked: bool)
    requires StoreOk(w, t, log) && DistinctPaths(files) && (forall f | f in files :: f.path != "") && Looked(w, t, files, now, looked)
    requires forall f | f in files && f.prior :: Hit(w, t, IdOf(f))
    ensures Exportable(w, log, now)
  {
    hide Has, Hit, StoreOk;
    forall f | f in now ensures f.path != "" && (f.prior ==> Has(w, log, IdOf(f))) {
      var i :| 0 <= i < |now| && now[i] == f;
      assert files[i] in files;
      if f.prior {
        HitHas(w, t, log, IdOf(files[i]));
      }
    }
    forall i, j | 0 <= i < j < |now| ensures now[i].path != now[j].path {
      assert IdOf(now[i]) == IdOf(files[i]) && IdOf(now[j]) == IdOf(files[j]);
    }
  }

  lemma NothingSent(w: World, t: Tables, log: seq<Bundle>, files: seq<File>, now: seq<File>, metadata: seq<Meta>)
    requires StoreOk(w, t, log) && Exportable(w, log, now) && SameIds(files, now)
    requires forall i | 0 <= i < |now| :: now[i].prior
    requires forall f | f in now :: IdOf(f) !in t.pending
    requires forall m | m in metadata :: m.key in t.metadata && t.metadata[m.key] == m.sha
    ensures AllThere(w, log, files, metadata)
  {
    hide Has, NamedSince, StoreOk;
    SkipIsRight(w, t, log, now, metadata);
    forall f | f in files ensures Has(w, log, IdOf(f)) && NamedSince(log, 0, IdOf(f)) {
      var i :| 0 <= i < |files| && files[i] == f;
      assert now[i] in now;
    }
  }

  lemma KnownMeans(w: World, t: Tables, files: seq<File>, now: seq<File>, metadata: seq<Meta>)
    requires NothingNew(w, t, files, metadata) && Looked(w, t, files, now, true)
    ensures (forall i | 0 <= i < |now| :: now[i].prior) && forall f | f in now :: IdOf(f) !in t.pending
    ensures forall m | m in metadata :: m.key in t.metadata && t.metadata[m.key] == m.sha
  {
    hide Hit;
    forall f | f in now ensures f.prior && IdOf(f) !in t.pending {
      var i :| 0 <= i < |now| && now[i] == f;
      assert files[i] in files;
    }
  }

  // ---- nothing is sent twice ----

  /** Every durable step succeeds. */
  ghost predicate Reliable(w: World) { forall n: nat :: w.fate(n).Done? }

  /** The store after a bundle that was recorded. */
  function After(w: World, t: Tables, b: Bundle): Tables
  {
    var now := Recorded(w, Invalidated(w, t, b), b.files);
    now.(metadata := Publish(now.metadata, b.metadata))
  }

  lemma {:induction false} LatestKeeps(w: World, latest: map<string, string>, files: seq<File>, p: string)
    requires forall f | f in files :: f.prior || f.path != p
    ensures p in Latest(w, latest, files) <==> p in latest
    ensures p in latest ==> Latest(w, latest, files)[p] == latest[p]
  {
    if files != [] {
      LatestKeeps(w, latest, files[..|files| - 1], p);
    }
  }

  lemma {:induction false} LatestSets(w: World, latest: map<string, string>, files: seq<File>, f: File)
    requires f in files && !f.prior && w.varies(f.path) && DistinctPaths(files)
    ensures f.path in Latest(w, latest, files) && Latest(w, latest, files)[f.path] == f.sha
  {
    var n := |files| - 1;
    if files[n] != f {
      assert f in files[..n];
      var i :| 0 <= i < n && files[i] == f;
      LatestSets(w, latest, files[..n], f);
    }
  }

  /** A recorded bundle's packed files are hits, and hits under other paths stay hits. */
  lemma HitAfter(w: World, t: Tables, b: Bundle, id: Id)
    requires DistinctPaths(b.files) && id.path != ""
    requires (exists f :: f in b.files && !f.prior && IdOf(f) == id) ||
      (Hit(w, t, id) && Id("", id.sha) !in t.forwarded && forall f | f in b.files && !f.prior :: f.path != id.path)
    ensures Hit(w, After(w, t, b), id)
  {
    var latest := t.latest - Replaced(w, b.files);
    if f :| f in b.files && !f.prior && IdOf(f) == id {
      if w.varies(id.path) {
        LatestSets(w, latest, b.files, f);
      }
    } else {
      LatestKeeps(w, latest, b.files, id.path);
    }
  }

  ghost predicate DistinctKeys(metadata: seq<Meta>)
  {
    forall i, j | 0 <= i < j < |metadata| :: metadata[i].key != metadata[j].key
  }

  lemma {:induction false} PublishSets(known: map<string, string>, metadata: seq<Meta>, m: Meta)
    requires m in metadata && DistinctKeys(metadata)
    ensures m.key in Publish(known, metadata) && Publish(known, metadata)[m.key] == m.sha
  {
    var n := |metadata| - 1;
    if metadata[n] != m {
      assert m in metadata[..n];
      var i :| 0 <= i < n && metadata[i] == m;
      PublishSets(known, metadata[..n], m);
    }
  }

  /** All references among some files are hits. */
  ghost predicate PriorHits(w: World, t: Tables, files: seq<File>)
  {
    forall f | f in files && f.prior :: Hit(w, t, IdOf(f))
  }

  ghost predicate PathsNamed(t: Tables) { forall id | id in t.forwarded :: id.path != "" }

  lemma StorePaths(w: World, t: Tables, log: seq<Bundle>)
    requires StoreOk(w, t, log)
    ensures PathsNamed(t)
  {
  }

  lemma OtherPaths(files: seq<File>, chunk: seq<nat>, i: nat)
    requires DistinctPaths(files) && Within(files, chunk) && i < |files| && i !in chunk
    ensures forall f | f in Part(files, chunk) :: f.path != files[i].path
  {
    forall f | f in Part(files, chunk) ensures f.path != files[i].path {
      var j :| 0 <= j < |chunk| && files[chunk[j]] == f;
      assert chunk[j] in chunk;
      assert chunk[j] < i || i < chunk[j];
    }
  }

  /** After a content part of some files, those marked are hits. */
  lemma MarkedHits(w: World, t: Tables, b: Bundle, files: seq<File>, now: seq<File>, chunk: seq<nat>)
    requires DistinctPaths(files) && (forall f | f in files :: f.path != "") && Within(files, chunk) && SameIds(files, now)
    requires b.files == Part(files, chunk) && DistinctPaths(b.files) && forall f | f in b.files :: !f.prior
    requires PathsNamed(t) && PriorHits(w, t, now)
    ensures PriorHits(w, After(w, t, b), Marked(now, chunk))
  {
    hide Hit, After, DistinctPaths;
    var marked := Marked(now, chunk);
    forall i | 0 <= i < |marked| && marked[i].prior ensures Hit(w, After(w, t, b), IdOf(marked[i])) {
      assert files[i] in files && IdOf(files[i]) == IdOf(now[i]);
      if i in chunk {
        var j :| 0 <= j < |chunk| && chunk[j] == i;
        assert b.files[j] == files[i] && b.files[j] in b.files;
        HitAfter(w, t, b, IdOf(files[i]));
      } else {
        assert now[i] in now && marked[i] == now[i];
        OtherPaths(files, chunk, i);
        HitAfter(w, t, b, IdOf(files[i]));
      }
    }
  }

  /** After an ecosystem bundle that was recorded and cleared, the store knows all there was to send. */
  lemma ThenNothingNew(w: World, t: Tables, b: Bundle, files: seq<File>)
    requires DistinctPaths(b.files) && (forall f | f in b.files :: f.path != "") && DistinctKeys(b.metadata)
    requires PathsNamed(t) && PriorHits(w, t, b.files) && SameIds(files, b.files)
    ensures var now := After(w, t, b);
      NothingNew(w, now.(pending := now.pending - (set f | f in b.files :: IdOf(f))), files, b.metadata)
  {
    var after := After(w, t, b);
    var now := after.(pending := after.pending - (set f | f in b.files :: IdOf(f)));
    forall i | 0 <= i < |files| ensures Hit(w, now, IdOf(files[i])) && IdOf(files[i]) !in now.pending {
      var f := b.files[i];
      assert f in b.files;
      if f.prior {
        OwnPath(b.files, f);
      }
      HitAfter(w, t, b, IdOf(f));
    }
    forall m | m in b.metadata ensures m.key in now.metadata && now.metadata[m.key] == m.sha {
      PublishSets(Recorded(w, Invalidated(w, t, b), b.files).metadata, b.metadata, m);
    }
  }

  lemma PartHits(w: World, log: seq<Bundle>, t0: Tables, t: Tables, b: Bundle, files: seq<File>, now: seq<File>, chunks: seq<seq<nat>>, k: nat)
    requires k < |chunks| && Within(files, chunks[k]) && b.files == Part(files, chunks[k]) && now == Marked(files, Flat(chunks[..k]))
    requires Exportable(w, log, files) && Exportable(w, log, b.files) && forall f | f in b.files :: !f.prior
    requires PathsNamed(t0) && PriorHits(w, t0, now)
    requires t == After(w, t0.(pending := t0.pending + (set x | x in b.files :: IdOf(x))), b)
    ensures PriorHits(w, t, Marked(now, chunks[k]))
  {
    hide Has;
    var t1 := t0.(pending := t0.pending + (set x | x in b.files :: IdOf(x)));
    assert PriorHits(w, t1, now);
    MarkedHits(w, t1, b, files, now, chunks[k]);
  }

  lemma BundleThen(w: World, log: seq<Bundle>, t: Tables, b: Bundle, files: seq<File>)
    requires Exportable(w, log, b.files) && DistinctKeys(b.metadata)
    requires PathsNamed(t) && PriorHits(w, t, b.files) && SameIds(files, b.files)
    ensures var now := After(w, t, b);
      NothingNew(w, now.(pending := now.pending - (set f | f in b.files :: IdOf(f))), files, b.metadata)
  {
    hide Has, Hit, After;
    ThenNothingNew(w, t, b, files);
  }

  lemma FlaggedHits(w: World, t: Tables, files: seq<File>, now: seq<File>, looked: bool)
    requires Looked(w, t, files, now, looked) && forall f | f in files && f.prior :: Hit(w, t, IdOf(f))
    ensures PriorHits(w, t, now)
  {
    hide Hit;
    forall f | f in now && f.prior ensures Hit(w, t, IdOf(f)) {
      var i :| 0 <= i < |now| && now[i] == f;
      assert files[i] in files;
    }
  }

  /** Each file fits a bundle by itself. */
  ghost predicate AllSmall(files: seq<File>, budget: nat)
  {
    forall i: nat | i < |files| :: SmallEnough(files, i, budget)
  }

  lemma SmallFits(files: seq<File>, now: seq<File>, budget: nat)
    requires |now| == |files| && forall i | 0 <= i < |files| :: now[i].size == files[i].size
    ensures AllSmall(files, budget) ==> Fitting(now, budget)
  {
    if AllSmall(files, budget) {
      forall i: nat | i < |now| && !now[i].prior ensures SmallEnough(now, i, budget) {
        assert SmallEnough(files, i, budget);
      }
    }
  }

  // ---- what is sent at all ----

  /** What a bundle packs is among the files to deliver. */
  ghost predicate PacksFrom(b: Bundle, files: seq<File>)
  {
    forall id | Packs(b, id) :: Due(files, id)
  }

  ghost predicate Due(files: seq<File>, id: Id) { exists i :: 0 <= i < |files| && !files[i].prior && IdOf(files[i]) == id }

  ghost predicate AllFrom(log: seq<Bundle>, i: nat, files: seq<File>)
  {
    forall k | i <= k < |log| :: PacksFrom(log[k], files)
  }

  /** No bundle from position i on packs a file that the store knew. */
  ghost predicate NoneResent(w: World, t: Tables, log: seq<Bundle>, i: nat)
  {
    forall k, id | i <= k < |log| && Packs(log[k], id) :: !Hit(w, t, id)
  }

  /** A file that an export has to deliver: none that is a reference already, and none the store knows, if
      it was looked at. */
  ghost predicate Wanted(w: World, t: Tables, f: File, looked: bool) { !f.prior && !(looked && Hit(w, t, IdOf(f))) }

  /** The bundles from position i on pack some of the files, each at a position of its own. */
  ghost predicate AllSent(log: seq<Bundle>, i: nat, files: seq<File>, idx: seq<nat>)
  {
    forall x | x in idx && x < |files| :: SentIn(log, i, IdOf(files[x]))
  }

  ghost predicate SentIn(log: seq<Bundle>, i: nat, id: Id) { exists k :: i <= k < |log| && Packs(log[k], id) }

  /** Exactly what has to be delivered is packed. */
  ghost predicate SentExactly(w: World, t: Tables, files: seq<File>, log: seq<Bundle>, i: nat, looked: bool)
  {
    && SentOnlyWanted(w, t, files, log, i, looked)
    && forall f | f in files && Wanted(w, t, f, looked) :: SentIn(log, i, IdOf(f))
  }

  ghost predicate SentOnlyWanted(w: World, t: Tables, files: seq<File>, log: seq<Bundle>, i: nat, looked: bool)
  {
    forall id | SentIn(log, i, id) :: exists f :: f in files && IdOf(f) == id && Wanted(w, t, f, looked)
  }

  lemma SentMore(log: seq<Bundle>, i: nat, b: Bundle)
    requires i <= |log|
    ensures forall id | SentIn(log, i, id) || Packs(b, id) :: SentIn(log + [b], i, id)
  {
    hide Packs;
    var now := log + [b];
    forall id | SentIn(log, i, id) ensures SentIn(now, i, id) {
      var k :| i <= k < |log| && Packs(log[k], id);
      assert now[k] == log[k];
    }
    assert now[|log|] == b;
  }

  lemma PartSent(log: seq<Bundle>, i: nat, b: Bundle, files: seq<File>, chunks: seq<seq<nat>>, k: nat)
    requires k < |chunks| && i <= |log| && Within(files, chunks[k]) && b.files == Part(files, chunks[k]) && forall f | f in b.files :: !f.prior
    requires AllSent(log, i, files, Flat(chunks[..k]))
    ensures AllSent(log + [b], i, files, Flat(chunks[..k + 1]))
  {
    hide SentIn;
    SentMore(log, i, b);
    assert chunks[..k + 1][..k] == chunks[..k];
    forall x | x in Flat(chunks[..k + 1]) && x < |files| ensures SentIn(log + [b], i, IdOf(files[x])) {
      if x in chunks[k] {
        var j :| 0 <= j < |chunks[k]| && chunks[k][j] == x;
        assert b.files[j] == files[x] && b.files[j] in b.files;
        PacksOwn(b, b.files[j]);
      }
    }
  }

  /** Once the rest has gone too, every file to deliver has been packed. */
  lemma RestSent(log: seq<Bundle>, i: nat, b: Bundle, files: seq<File>, idx: seq<nat>)
    requires i <= |log| && AllSent(log, i, files, idx) && b.files == Marked(files, idx)
    ensures forall x | 0 <= x < |files| && !files[x].prior :: SentIn(log + [b], i, IdOf(files[x]))
  {
    hide SentIn;
    SentMore(log, i, b);
    forall x | 0 <= x < |files| && !files[x].prior ensures SentIn(log + [b], i, IdOf(files[x])) {
      if x !in idx {
        assert b.files[x] == files[x] && b.files[x] in b.files;
        PacksOwn(b, b.files[x]);
      }
    }
  }

  lemma SentOfFlagged(w: World, t: Tables, files: seq<File>, now: seq<File>, log: seq<Bundle>, i: nat, looked: bool)
    requires Looked(w, t, files, now, looked) && AllFrom(log, i, now)
    ensures SentOnlyWanted(w, t, files, log, i, looked)
    ensures (forall x | 0 <= x < |now| && !now[x].prior :: SentIn(log, i, IdOf(now[x]))) ==> SentExactly(w, t, files, log, i, looked)
  {
    hide Hit, Packs;
    forall id | SentIn(log, i, id) ensures exists f :: f in files && IdOf(f) == id && Wanted(w, t, f, looked) {
      var k :| i <= k < |log| && Packs(log[k], id);
      assert PacksFrom(log[k], now);
      var x :| 0 <= x < |now| && !now[x].prior && IdOf(now[x]) == id;
      assert files[x] in files && IdOf(files[x]) == id && Wanted(w, t, files[x], looked);
    }
    if forall x | 0 <= x < |now| && !now[x].prior :: SentIn(log, i, IdOf(now[x])) {
      forall f | f in files && Wanted(w, t, f, looked) ensures SentIn(log, i, IdOf(f)) {
        var x :| 0 <= x < |files| && files[x] == f;
        assert !now[x].prior && IdOf(now[x]) == IdOf(f);
      }
    }
  }

  /** All are references after the look exactly if none has to be delivered. */
  lemma NoneWanted(w: World, t: Tables, files: seq<File>, now: seq<File>, looked: bool)
    requires Looked(w, t, files, now, looked)
    ensures (forall i | 0 <= i < |now| :: now[i].prior) <==> forall f | f in files :: !Wanted(w, t, f, looked)
  {
    hide Hit;
    forall i | 0 <= i < |now| ensures now[i].prior <==> !Wanted(w, t, files[i], looked) {
    }
    assert forall i | 0 <= i < |files| :: files[i] in files && now[i] in now;
  }

  lemma NothingFrom(log: seq<Bundle>, files: seq<File>)
    ensures AllFrom(log, |log|, files)
  {
  }

  lemma FromMore(log: seq<Bundle>, i: nat, files: seq<File>, b: Bundle)
    requires AllFrom(log, i, files) && PacksFrom(b, files)
    ensures AllFrom(log + [b], i, files)
  {
    hide PacksFrom;
  }

  lemma PartFrom(files: seq<File>, chunk: seq<nat>, b: Bundle)
    requires Within(files, chunk) && b.files == Part(files, chunk)
    ensures PacksFrom(b, files)
  {
    forall id | Packs(b, id) ensures Due(files, id) {
      var i :| 0 <= i < |b.files| && !b.files[i].prior && IdOf(b.files[i]) == id;
      assert files[chunk[i]] == b.files[i];
    }
  }

  lemma RestFrom(files: seq<File>, idx: seq<nat>, b: Bundle)
    requires b.files == Marked(files, idx) || b.files == files
    ensures PacksFrom(b, files)
  {
    forall id | Packs(b, id) ensures Due(files, id) {
      var i :| 0 <= i < |b.files| && !b.files[i].prior && IdOf(b.files[i]) == id;
      assert !files[i].prior && IdOf(files[i]) == id;
    }
  }

  lemma NoneSent(log: seq<Bundle>, files: seq<File>, chunks: seq<seq<nat>>)
    ensures AllSent(log, |log|, files, Flat(chunks[..0]))
  {
  }

  lemma NothingResent(w: World, t: Tables, log: seq<Bundle>)
    ensures NoneResent(w, t, log, |log|)
  {
  }

  lemma LookedSame(w: World, t: Tables, files: seq<File>, now: seq<File>, looked: bool)
    requires Looked(w, t, files, now, looked)
    ensures SameIds(files, now) && forall i | 0 <= i < |files| :: now[i].size == files[i].size
  {
  }

  /** As LookedNotResent, when the look succeeded. */
  lemma SentOnlyNew(w: World, t: Tables, files: seq<File>, now: seq<File>, log: seq<Bundle>, i: nat, looked: bool)
    requires Looked(w, t, files, now, looked) && AllFrom(log, i, now)
    ensures looked ==> NoneResent(w, t, log, i)
  {
    hide Looked, AllFrom, NoneResent;
    if looked {
      LookedNotResent(w, t, files, now, log, i);
    }
  }

  lemma LookedNotResent(w: World, t: Tables, files: seq<File>, now: seq<File>, log: seq<Bundle>, i: nat)
    requires Looked(w, t, files, now, true) && AllFrom(log, i, now)
    ensures NoneResent(w, t, log, i)
  {
    hide Hit, Packs;
    forall k, id | i <= k < |log| && Packs(log[k], id) ensures !Hit(w, t, id) {
      assert PacksFrom(log[k], now);
      var x :| 0 <= x < |now| && !now[x].prior && IdOf(now[x]) == id;
      assert !Hit(w, t, IdOf(files[x]));
    }
  }

  /** The bundle of an ecosystem: it lists all the files, in their order, and carries the metadata. */
  ghost predicate Final(b: Bundle, files: seq<File>, metadata: seq<Meta>)
  {
    !b.part && b.metadata == metadata && |b.files| == |files| && forall i | 0 <= i < |files| :: IdOf(b.files[i]) == IdOf(files[i])
  }

  lemma IsFinal(b: Bundle, files: seq<File>, metadata: seq<Meta>)
    requires !b.part && b.metadata == metadata && SameIds(files, b.files)
    ensures Final(b, files, metadata)
  {
  }

  lemma NoneYet(log: seq<Bundle>, files: seq<File>, chunks: seq<seq<nat>>)
    ensures |chunks| < 2 ==> var idx := Flat(chunks[..Max(|chunks| - 1, 0)]);
      AllSent(log, |log|, files, idx) && files == Marked(files, idx)
  {
  }

  lemma SamePending(t: Tables, files: seq<File>, now: seq<File>)
    requires SameIds(files, now)
    ensures (forall f | f in now :: IdOf(f) !in t.pending) <==> forall f | f in files :: IdOf(f) !in t.pending
  {
    assert forall i | 0 <= i < |files| :: files[i] in files && now[i] in now;
  }

  /** The steps of a sequenced bundle before its files are recorded: allocating a number, forgetting what it
      replaces, if anything, writing it, and committing the number. */
  function StepsBefore(w: World, b: Bundle): nat
  {
    3 + (if Replaced(w, b.files) == {} then 0 else 1) + (if b.metadata == [] then 0 else 1)
  }

  /** They all succeed. */
  ghost predicate Commits(w: World, b: Bundle, step: nat)
  {
    forall n | step <= n < step + StepsBefore(w, b) :: w.fate(n).Done?
  }

  /** The bundle is written: everything before succeeds, and the writing has its effect. */
  ghost predicate Writes(w: World, b: Bundle, step: nat)
  {
    var at := step + StepsBefore(w, b) - 2;
    (forall n | step <= n < at :: w.fate(n).Done?) && (w.fate(at).Done? || w.fate(at).applied)
  }

  /** The store once the recording has had its effects, each of which may fail. */
  function RecordedAfter(w: World, t: Tables, b: Bundle, step: nat): Tables
  {
    RecordedFrom(w, Invalidated(w, t, b), b, step)
  }

  function RecordedFrom(w: World, t1: Tables, b: Bundle, step: nat): Tables
  {
    var t2 := if b.files == [] || Applied(w.fate(step)) then Recorded(w, t1, b.files) else t1;
    var next := if b.files == [] then step else step + 1;
    if b.metadata == [] || Applied(w.fate(next)) then t2.(metadata := Publish(t2.metadata, b.metadata)) else t2
  }

  lemma RecordedNothing(w: World, t: Tables, b: Bundle)
    ensures b.files == [] ==> Recorded(w, t, b.files) == t
  {
  }

  lemma PublishNothing(known: map<string, string>, b: Bundle)
    ensures b.metadata == [] ==> Publish(known, b.metadata) == known
  {
  }

  lemma AllApplied(w: World, t: Tables, b: Bundle, step: nat)
    requires Reliable(w)
    ensures RecordedAfter(w, t, b, step) == After(w, t, b)
  {
  }

  function Stopped(f: Fate): Result { if f.Died? then Crashed else Refused }

  // ---- the exporter ----

  class LowSide {
    const w: World
    const budget: nat
    var steps: nat
    var t: Tables
    var log: seq<Bundle>

    constructor (w: World, budget: nat)
      ensures this.w == w && this.budget == budget && Valid() && log == []
    {
      this.w, this.budget := w, budget;
      steps, t, log := 0, Tables({}, map[], map[], {}), [];
    }

    /** The store tells the truth about the bundles, and so do their references. */
    ghost predicate Valid()
      reads this
    {
      StoreOk(w, t, log) && AllTruthful(w, log)
    }

    /** A durable step, or none where there is nothing to do. */
    ghost predicate OneStep(needed: bool, before: nat, after: nat, f: Fate)
    {
      if needed then after == before + 1 && f == w.fate(before) else after == before && f == Done
    }

    /** The process lives through some steps. */
    ghost predicate Alive(from: nat, to: nat)
    {
      forall n | from <= n < to :: !w.fate(n).Died?
    }

    /** A durable step: what becomes of it is up to the world. */
    method Next() returns (f: Fate)
      modifies this`steps
      ensures f == w.fate(old(steps)) && steps == old(steps) + 1
    {
      f := w.fate(steps);
      steps := steps + 1;
    }

    method ForwardedFlags(files: seq<File>) returns (flags: Option<seq<bool>>)
      modifies this`steps
      ensures steps == old(steps) + 1 && flags.Some? == w.fate(old(steps)).Done?
      ensures flags.Some? ==> |flags.value| == |files|
      ensures flags.Some? ==> forall i | 0 <= i < |files| :: flags.value[i] == Hit(w, t, IdOf(files[i]))
    {
      var f := Next();
      var hits: seq<bool> := [];
      for i := 0 to |files|
        invariant |hits| == i && forall j | 0 <= j < i :: hits[j] == Hit(w, t, IdOf(files[j]))
      {
        hits := hits + [Hit(w, t, IdOf(files[i]))];
      }
      flags := if f.Done? then Some(hits) else None;
    }

    /** MetadataChanged; a lookup that fails counts as a change. */
    method MetadataChanged(metadata: seq<Meta>) returns (changed: bool)
      modifies this`steps
      ensures steps == old(steps) + 1
      ensures !changed <==>
        w.fate(old(steps)).Done? && forall m | m in metadata :: m.key in t.metadata && t.metadata[m.key] == m.sha
    {
      var f := Next();
      for i := 0 to |metadata|
        invariant forall j | 0 <= j < i :: metadata[j].key in t.metadata && t.metadata[metadata[j].key] == metadata[j].sha
      {
        var m := metadata[i];
        if m.key !in t.metadata || t.metadata[m.key] != m.sha {
          return true;
        }
      }
      changed := !f.Done?;
    }

    /** HasPendingMetadata; a lookup that fails counts as pending. */
    method HasPending(files: seq<File>) returns (pending: bool)
      modifies this`steps
      ensures steps == old(steps) + 1
      ensures !pending <==> w.fate(old(steps)).Done? && forall f | f in files :: IdOf(f) !in t.pending
    {
      var f := Next();
      for i := 0 to |files|
        invariant forall j | 0 <= j < i :: IdOf(files[j]) !in t.pending
      {
        if IdOf(files[i]) in t.pending {
          return true;
        }
      }
      pending := !f.Done?;
    }

    /** markPriorFiles: a lookup that fails marks nothing. */
    method MarkPrior(files: seq<File>) returns (now: seq<File>)
      modifies this`steps
      ensures steps == old(steps) + 1 && Looked(w, t, files, now, w.fate(old(steps)).Done?)
    {
      hide Hit;
      var flags := ForwardedFlags(files);
      now := if flags.Some? then Flagged(files, flags.value) else files;
    }

    method NeedsMetadata(files: seq<File>, force: bool, metadata: seq<Meta>) returns (needed: bool)
      modifies this`steps
      ensures needed <==>
        || (force && metadata != [])
        || !(w.fate(old(steps)).Done? && forall m | m in metadata :: m.key in t.metadata && t.metadata[m.key] == m.sha)
        || !(w.fate(old(steps) + 1).Done? && forall f | f in files :: IdOf(f) !in t.pending)
    {
      if force && metadata != [] {
        return true;
      }
      needed := MetadataChanged(metadata);
      if !needed {
        needed := HasPending(files);
      }
    }

    method InvalidateMutable(files: seq<File>) returns (f: Fate)
      modifies this`steps, this`t
      ensures OneStep(Replaced(w, files) != {}, old(steps), steps, f)
      ensures Reliable(w) ==> f.Done?
      ensures t == if Applied(f) then old(t).(latest := old(t).latest - Replaced(w, files)) else old(t)
    {
      var paths := Replaced(w, files);
      if paths == {} {
        return Done;
      }
      f := Next();
      if Applied(f) {
        t := t.(latest := t.latest - paths);
      }
    }

    method InvalidateMetadata(metadata: seq<Meta>) returns (f: Fate)
      modifies this`steps, this`t
      ensures OneStep(metadata != [], old(steps), steps, f)
      ensures Reliable(w) ==> f.Done?
      ensures t == if Applied(f) then old(t).(metadata := old(t).metadata - Keys(metadata)) else old(t)
    {
      if metadata == [] {
        return Done;
      }
      f := Next();
      if Applied(f) {
        t := t.(metadata := t.metadata - Keys(metadata));
      }
    }

    /** Record: in one transaction, every file and the latest contents of the replaceable ones. */
    method Record(files: seq<File>) returns (f: Fate)
      modifies this`steps, this`t
      ensures OneStep(files != [], old(steps), steps, f)
      ensures Reliable(w) ==> f.Done?
      ensures t == if Applied(f) then Recorded(w, old(t), files) else old(t)
    {
      if files == [] {
        return Done;
      }
      f := Next();
      var forwarded, latest := t.forwarded, t.latest;
      for i := 0 to |files|
        invariant forwarded == t.forwarded + (set x | x in files[..i] :: IdOf(x)) && latest == Latest(w, t.latest, files[..i])
      {
        assert files[..i + 1] == files[..i] + [files[i]];
        forwarded := forwarded + {IdOf(files[i])};
        if !files[i].prior && w.varies(files[i].path) {
          latest := latest[files[i].path := files[i].sha];
        }
      }
      assert files[..|files|] == files;
      if Applied(f) {
        t := t.(forwarded := forwarded, latest := latest);
      }
    }

    method RecordMetadata(metadata: seq<Meta>) returns (f: Fate)
      modifies this`steps, this`t
      ensures OneStep(metadata != [], old(steps), steps, f)
      ensures Reliable(w) ==> f.Done?
      ensures t == if Applied(f) then old(t).(metadata := Publish(old(t).metadata, metadata)) else old(t)
    {
      if metadata == [] {
        return Done;
      }
      f := Next();
      var known := t.metadata;
      for i := 0 to |metadata|
        invariant known == Publish(t.metadata, metadata[..i])
      {
        assert metadata[..i + 1][..i] == metadata[..i];
        known := known[metadata[i].key := metadata[i].sha];
      }
      assert metadata[..|metadata|] == metadata;
      if Applied(f) {
        t := t.(metadata := known);
      }
    }

    method MarkPending(files: seq<File>) returns (f: Fate)
      modifies this`steps, this`t
      ensures OneStep(true, old(steps), steps, f)
      ensures Reliable(w) ==> f.Done?
      ensures t == if Applied(f) then old(t).(pending := old(t).pending + (set x | x in files :: IdOf(x))) else old(t)
    {
      f := Next();
      if Applied(f) {
        t := t.(pending := t.pending + (set x | x in files :: IdOf(x)));
      }
    }

    method ClearPending(files: seq<File>) returns (f: Fate)
      modifies this`steps, this`t
      ensures OneStep(true, old(steps), steps, f)
      ensures Reliable(w) ==> f.Done?
      ensures t == if Applied(f) then old(t).(pending := old(t).pending - (set x | x in files :: IdOf(x))) else old(t)
    {
      f := Next();
      if Applied(f) {
        t := t.(pending := t.pending - (set x | x in files :: IdOf(x)));
      }
    }

    /** exportSequencedBundle: invalidate, write, commit, record, and a crash or a failure between any two. */
    method ExportSequenced(b: Bundle) returns (r: Result)
      requires Valid() && Ready(w, t, log, b)
      modifies this
      ensures Valid() && t.pending == old(t.pending)
      ensures log == old(log) || log == old(log) + [b]
      ensures r.Exported? ==> log == old(log) + [b]
      ensures !r.Skipped? && steps >= old(steps) && (r.Crashed? <==> !Alive(old(steps), steps))
      ensures log == if Writes(w, b, old(steps)) then old(log) + [b] else old(log)
      ensures r.Exported? ==> Commits(w, b, old(steps)) && t == RecordedAfter(w, old(t), b, old(steps) + StepsBefore(w, b))
      ensures Commits(w, b, old(steps)) ==> !r.Refused?
      ensures !Commits(w, b, old(steps)) ==> t.forwarded == old(t).forwarded && !r.Exported?
      ensures Reliable(w) ==> r.Exported? && t == After(w, old(t), b)
    {
      hide StoreOk, Ready, AllTruthful, Recorded, Publish, Invalidated, Writes, Commits;
      ghost var t0, log0, at := t, log, steps;
      r := WriteSequenced(b);
      if !r.Exported? {
        return;
      }
      ghost var mid := steps;
      r := RecordSequenced(b, log0);
      AliveBoth(at, mid, steps);
      if Reliable(w) {
        AllApplied(w, t0, b, mid);
      }
    }

    lemma AliveBoth(a: nat, b: nat, c: nat)
      requires a <= b <= c
      ensures Alive(a, c) <==> Alive(a, b) && Alive(b, c)
    {
    }

    /** Up to the committed number. */
    method WriteSequenced(b: Bundle) returns (r: Result)
      requires Valid() && Ready(w, t, log, b)
      modifies this
      ensures Valid() && t.pending == old(t.pending) && t.forwarded == old(t.forwarded) && !r.Skipped?
      ensures log == if Writes(w, b, old(steps)) then old(log) + [b] else old(log)
      ensures r.Exported? <==> Commits(w, b, old(steps))
      ensures r.Exported? ==> steps == old(steps) + StepsBefore(w, b) && t == Invalidated(w, old(t), b)
      ensures r.Exported? ==> log == old(log) + [b] && StoreOk(w, t, old(log)) && Ready(w, t, old(log), b)
      ensures steps >= old(steps) && (r.Crashed? <==> !Alive(old(steps), steps))
      ensures Reliable(w) ==> r.Exported?
    {
      hide StoreOk, Ready, AllTruthful, Replaced, Keys;
      ghost var t0, log0 := t, log;
      var f := Next();
      if !f.Done? {
        return Stopped(f);
      }
      InvalidatedOk(w, t0, log0, b);
      f := InvalidateMutable(b.files);
      if !f.Done? {
        return Stopped(f);
      }
      f := InvalidateMetadata(b.metadata);
      if !f.Done? {
        return Stopped(f);
      }
      StillReady(w, t0, t, log0, b);
      f := Next();
      if Applied(f) {
        WrittenOk(w, t, log0, b);
        log := log + [b];
      }
      if !f.Done? {
        return Stopped(f);
      }
      f := Next();
      r := if f.Done? then Exported else Stopped(f);
    }

    /** What follows it. */
    method RecordSequenced(b: Bundle, ghost log0: seq<Bundle>) returns (r: Result)
      requires Valid() && log == log0 + [b] && StoreOk(w, t, log0) && Ready(w, t, log0, b)
      modifies this`steps, this`t
      ensures Valid() && t.pending == old(t.pending) && !r.Skipped? && !r.Refused?
      ensures r.Exported? ==> t == RecordedFrom(w, old(t), b, old(steps))
      ensures steps >= old(steps) && (r.Crashed? <==> !Alive(old(steps), steps))
      ensures Reliable(w) ==> r.Exported?
    {
      hide StoreOk, Ready, AllTruthful, Latest, Publish, Replaced, Keys;
      ghost var t1 := t;
      RecordedOk(w, t1, log0, b);
      RecordedNothing(w, t1, b);
      var f := Record(b.files);
      if f.Died? {
        return Crashed;
      }
      ghost var t2 := t;
      MetadataWithin(w, t1, log0);
      PublishedOk(w, t2, log0, b, t2.metadata);
      PublishNothing(t2.metadata, b);
      f := RecordMetadata(b.metadata);
      r := if f.Died? then Crashed else Exported;
    }

    /** exportContentParts: all chunks but the last, each marked as delivered. */
    method ExportParts(files: seq<File>, chunks: seq<seq<nat>>) returns (r: Result, now: seq<File>)
      requires Valid() && Exportable(w, log, files) && IsSplit(files, budget, chunks) && chunks != []
      modifies this
      ensures Valid() && old(log) <= log && Fit(log, |old(log)|, budget) && !r.Skipped?
      ensures r.Exported? ==> now == Marked(files, Flat(chunks[..|chunks| - 1])) && Exportable(w, log, now)
      ensures Reliable(w) ==> r.Exported? && (PriorHits(w, old(t), files) ==> PriorHits(w, t, now))
      ensures AllFrom(log, |old(log)|, files)
      ensures r.Exported? ==> AllSent(log, |old(log)|, files, Flat(chunks[..|chunks| - 1]))
      ensures steps >= old(steps) && (r.Crashed? <==> !Alive(old(steps), steps))
    {
      hide AllSent, AllFrom, PacksFrom, PriorHits, After, StoreOk, Ready, AllTruthful, IsSplit, Exportable, Fits, Packed, Flat, Marked, Part, Fit;
      now := files;
      r := Exported;
      MarkNothing(files);
      NothingFrom(log, files);
      NothingWritten(log, budget);
      NoneSent(log, files, chunks);
      assert chunks[..0] == [];
      for k := 0 to |chunks| - 1
        invariant Valid() && old(log) <= log && Fit(log, |old(log)|, budget) && r.Exported?
        invariant steps >= old(steps) && Alive(old(steps), steps)
        invariant AllFrom(log, |old(log)|, files) && AllSent(log, |old(log)|, files, Flat(chunks[..k]))
        invariant Exportable(w, log, files) && Exportable(w, log, now) && now == Marked(files, Flat(chunks[..k]))
        invariant Reliable(w) && PriorHits(w, old(t), files) ==> PriorHits(w, t, now)
      {
        StorePaths(w, t, log);
        ghost var t0 := t;
        PartOf(w, log, files, budget, chunks, k);
        var b := Bundle(true, Part(files, chunks[k]), []);
        PendingMore(w, t, log, set x | x in b.files :: IdOf(x));
        var f := MarkPending(b.files);
        if !f.Done? {
          return Stopped(f), now;
        }
        PartFrom(files, chunks[k], b);
        PartReady(w, t, log, b);
        ghost var before := log;
        r := ExportSequenced(b);
        FitMore(before, |old(log)|, budget, b);
        FromMore(before, |old(log)|, files, b);
        if !r.Exported? {
          return;
        }
        AfterPart(w, before, b, files, now, chunks, k);
        PartSent(before, |old(log)|, b, files, chunks, k);
        if Reliable(w) && PriorHits(w, old(t), files) {
          PartHits(w, before, t0, t, b, files, now, chunks, k);
        }
        now := Marked(now, chunks[k]);
      }
    }

    /** exportIfNew. It looks at the store, unless it is forced not to, and then delivers exactly the files
        that are no references, neither given as such nor known to the store: nothing is sent twice, and
        nothing is left out that the receiver does not have, whatever fails and wherever the process stops.
        A forced export is a full one. */
    method ExportIfNew(files: seq<File>, force: bool, metadata: seq<Meta>) returns (r: Result)
      requires Valid() && DistinctPaths(files) && forall f | f in files :: f.path != ""
      requires forall f | f in files && f.prior :: Hit(w, t, IdOf(f))
      modifies this
      ensures Valid() && old(log) <= log && Fit(log, |old(log)|, budget)
      ensures r.Exported? || r.Skipped? ==> AllThere(w, log, files, metadata)
      ensures r.Skipped? ==> log == old(log) && t == old(t)
      ensures r.Skipped? <==>
        && (forall f | f in files :: !Wanted(w, old(t), f, Looks(force, old(steps))))
        && !Needed(old(t), files, force, metadata, if force then old(steps) else old(steps) + 1)
      ensures SentOnlyWanted(w, old(t), files, log, |old(log)|, Looks(force, old(steps)))
      ensures r.Exported? ==> SentExactly(w, old(t), files, log, |old(log)|, Looks(force, old(steps)))
      ensures r.Exported? ==> |log| > |old(log)| && Final(log[|log| - 1], files, metadata)
      ensures !force && NothingNew(w, old(t), files, metadata) && AllDone(old(steps)) ==> r.Skipped?
      ensures !force && w.fate(old(steps)).Done? ==> NoneResent(w, old(t), log, |old(log)|)
      ensures Reliable(w) && AllSmall(files, budget) ==> r.Exported? || r.Skipped?
      ensures Reliable(w) && r.Exported? && DistinctKeys(metadata) ==> NothingNew(w, t, files, metadata)
    {
      hide NoneResent, AllFrom, PacksFrom, Looked, PriorHits, After, Reliable, AllSmall, DistinctKeys, StoreOk, AllTruthful, Exportable,
        Packed, Fit, AllThere, Hit, DistinctPaths, Has, NothingNew, SentIn, SentOnlyWanted, SentExactly, Wanted, Final;
      NothingWritten(log, budget);
      var now := files;
      AsGiven(w, t, files);
      if !force {
        now := MarkPrior(files);
      }
      ghost var looked := Looks(force, old(steps));
      LookedSame(w, t, files, now, looked);
      NothingFrom(log, now);
      NothingResent(w, t, log);
      FlagsAre(w, t, log, files, now, looked);
      NoneWanted(w, t, files, now, looked);
      SentOfFlagged(w, t, files, now, log, |log|, looked);
      if looked && NothingNew(w, t, files, metadata) {
        KnownMeans(w, t, files, now, metadata);
      }
      SamePending(t, files, now);
      var changed := NeedsMetadata(now, force, metadata);
      if (forall i | 0 <= i < |now| :: now[i].prior) && !changed {
        NothingSent(w, t, log, files, now, metadata);
        return Skipped;
      }
      SmallFits(files, now, budget);
      FlaggedHits(w, t, files, now, looked);
      r := Deliver(now, metadata, files);
      SentOnlyNew(w, old(t), files, now, log, |old(log)|, looked);
      SentOfFlagged(w, old(t), files, now, log, |old(log)|, looked);
    }

    /** Whether an export looks at the store, and the look succeeds. */
    ghost predicate Looks(force: bool, step: nat) { !force && w.fate(step).Done? }

    /** Whether the metadata has to go, changed or uncertain or forced. */
    ghost predicate Needed(t: Tables, files: seq<File>, force: bool, metadata: seq<Meta>, step: nat)
    {
      || (force && metadata != [])
      || !(w.fate(step).Done? && forall m | m in metadata :: m.key in t.metadata && t.metadata[m.key] == m.sha)
      || !(w.fate(step + 1).Done? && forall f | f in files :: IdOf(f) !in t.pending)
    }

    /** The part of exportIfNew that has something to deliver: in content parts, if it must be, and then
        with the metadata. */
    method Deliver(files: seq<File>, metadata: seq<Meta>, ghost given: seq<File>) returns (r: Result)
      requires Valid() && Exportable(w, log, files) && SameIds(given, files)
      modifies this
      ensures Valid() && old(log) <= log && Fit(log, |old(log)|, budget) && !r.Skipped?
      ensures AllFrom(log, |old(log)|, files)
      ensures r.Exported? ==> AllThere(w, log, given, metadata)
      ensures r.Exported? ==> |log| > |old(log)| && Final(log[|log| - 1], given, metadata)
      ensures r.Exported? ==> forall x | 0 <= x < |files| && !files[x].prior :: SentIn(log, |old(log)|, IdOf(files[x]))
      ensures steps >= old(steps) && (r.Crashed? <==> !Alive(old(steps), steps))
      ensures Reliable(w) && Fitting(files, budget) ==> r.Exported?
      ensures Reliable(w) && r.Exported? && DistinctKeys(metadata) && PriorHits(w, old(t), files) ==> NothingNew(w, t, given, metadata)
    {
      hide AllFrom, PacksFrom, PriorHits, After, Reliable, DistinctKeys, StoreOk, Ready, AllTruthful, IsSplit, Exportable, Packed, Flat,
        Marked, Fit, AllThere, Hit, DistinctPaths, Has, NothingNew, SentIn, AllSent, Final;
      NothingWritten(log, budget);
      NothingFrom(log, files);
      var chunks := Split(files, budget);
      if chunks.None? {
        return Refused;
      }
      var now := files;
      NoneYet(log, files, chunks.value);
      if |chunks.value| >= 2 {
        r, now := ExportParts(files, chunks.value);
        if !r.Exported? {
          return;
        }
      }
      ghost var idx := Flat(chunks.value[..Max(|chunks.value| - 1, 0)]);
      WithinBudget(files, budget, chunks.value, now);
      assert SameIds(given, now);
      var b := Bundle(false, now, metadata);
      BundleReady(w, t, log, b);
      StorePaths(w, t, log);
      ghost var before, t0 := log, t;
      r := ExportSequenced(b);
      FitMore(before, |old(log)|, budget, b);
      RestFrom(files, idx, b);
      FromMore(before, |old(log)|, files, b);
      if !r.Exported? {
        return;
      }
      RestSent(before, |old(log)|, b, files, idx);
      IsFinal(b, given, metadata);
      if Reliable(w) && DistinctKeys(metadata) && PriorHits(w, t0, now) {
        BundleThen(w, before, t0, b, given);
      }
      ExportIsRight(w, before, b, given);
      ClearedOk(w, t, before, b);
      var f := ClearPending(now);
      if f.Died? {
        r := Crashed;
      }
    }

    /** The first three lookups from a step on succeed. */
    ghost predicate AllDone(step: nat)
    {
      w.fate(step).Done? && w.fate(step + 1).Done? && w.fate(step + 2).Done?
    }
  }

  function Flagged(files: seq<File>, flags: seq<bool>): seq<File>
    requires |flags| == |files|
  {
    seq(|files|, i requires 0 <= i < |files| => files[i].(prior := files[i].prior || flags[i]))
  }
}
