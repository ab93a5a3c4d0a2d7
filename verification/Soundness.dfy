/** What the verdicts of the integrity check mean, read off the file of a repository and the disk. */
module Soundness {
  import opened Bytes
  import opened Integrity

  // ---- what a sound repository has ----

  /** A blob is on disk, of this size, under a digest it hashes to. */
  ghost predicate Present(k: Disk, digest: string, size: int)
  {
    k.isDigest(digest) && 0 <= size && k.blob(digest).Some? && k.blob(digest).value == size
  }

  /** A manifest or an index of at most 4 MiB is on disk: of schema 2, not contradicting its media type, with
      a valid subject if it has one. */
  ghost predicate Document(k: Disk, digest: string, mediaType: string, size: int, m: Manifest)
  {
    && Present(k, digest, size) && 1 <= size <= 4_194_304 && k.manifest(digest) == Some(m)
    && mediaType in {"application/vnd.docker.distribution.manifest.v2+json", "application/vnd.oci.image.manifest.v1+json",
                     "application/vnd.docker.distribution.manifest.list.v2+json", "application/vnd.oci.image.index.v1+json"}
    && m.schema == 2 && (m.mediaType == "" || m.mediaType == mediaType)
    && (m.subject.Some? ==> k.isDigest(m.subject.value.digest) && 0 <= m.subject.value.size)
  }

  ghost predicate IndexType(mediaType: string)
  {
    mediaType in {"application/vnd.docker.distribution.manifest.list.v2+json", "application/vnd.oci.image.index.v1+json"}
  }

  /** A blob that a manifest names is on disk and recorded. */
  ghost predicate Held(k: Disk, b: Blob, recorded: seq<Blob>)
  {
    Present(k, b.digest, b.size) && exists i :: 0 <= i < |recorded| && recorded[i].digest == b.digest
  }

  /** The config and every layer of a manifest are on disk and recorded, and every recorded blob is on disk. */
  ghost predicate AllHeld(k: Disk, m: Manifest, recorded: seq<Blob>)
  {
    && m.config.digest != "" && Held(k, m.config, recorded) && (forall i | 0 <= i < |m.layers| :: Held(k, m.layers[i], recorded))
    && forall i | 0 <= i < |recorded| :: Present(k, recorded[i].digest, recorded[i].size)
  }

  lemma ReadMeans(k: Disk, r: Ref, m: Manifest)
    ensures ReadManifest(k, r) == Some(m) <==> Document(k, r.digest, r.mediaType, r.size, m)
  {
  }

  lemma PayloadMeans(k: Disk, m: Manifest, recorded: seq<Blob>)
    ensures PayloadOk(k, m, recorded) <==> AllHeld(k, m, recorded)
  {
    hide BlobOk, Present;
    assert forall b: Blob :: BlobOk(k, b) <==> Present(k, b.digest, b.size) by { hide *; BlobMeans(k); }
    assert m.config in Payload(m) && forall i | 0 <= i < |m.layers| :: m.layers[i] in Payload(m);
    assert forall b | b in Payload(m) :: b == m.config || b in m.layers;
    assert forall i | 0 <= i < |recorded| :: recorded[i] in recorded;
  }

  lemma BlobMeans(k: Disk)
    ensures forall b: Blob :: BlobOk(k, b) <==> Present(k, b.digest, b.size)
  {
  }

  /** What a sound image has: its document; if it is an index, no blobs of its own and an artifact record,
      else everything its manifest names and no blob it does not name; and an index it is kept with is there
      and lists it. */
  ghost predicate ImageThere(k: Disk, img: Image, records: set<string>, m: Manifest)
  {
    && Document(k, img.digest, img.mediaType, img.size, m)
    && (if IndexType(img.mediaType) then img.blobs == [] && img.digest in records
        else AllHeld(k, m, img.blobs) && forall i | 0 <= i < |img.blobs| :: Named(m, img.blobs[i].digest))
    && (img.index.Some? ==> exists x :: IndexThere(k, img, x))
  }

  ghost predicate Named(m: Manifest, digest: string)
  {
    digest == m.config.digest || exists i :: 0 <= i < |m.layers| && m.layers[i].digest == digest
  }

  ghost predicate IndexThere(k: Disk, img: Image, x: Manifest)
    requires img.index.Some?
  {
    var r := img.index.value;
    && Document(k, r.digest, r.mediaType, r.size, x) && IndexType(r.mediaType)
    && exists i :: 0 <= i < |x.manifests| && x.manifests[i].digest == img.digest && x.manifests[i].size == img.size
                   && x.manifests[i].mediaType == img.mediaType
  }

  lemma ImageMeans(k: Disk, img: Image, records: set<string>)
    ensures ImageOk(k, img, records) <==> ImageIsThere(k, img, records)
  {
    hide ReadManifest, PayloadOk, Document, AllHeld;
    var r := Ref(img.digest, img.mediaType, img.size);
    forall m ensures ReadManifest(k, r) == Some(m) <==> Document(k, img.digest, img.mediaType, img.size, m) {
      ReadMeans(k, r, m);
    }
    if img.index.Some? {
      KeptMeans(k, img);
    }
    if ReadManifest(k, r).Some? {
      var m := ReadManifest(k, r).value;
      PayloadMeans(k, m, img.blobs);
      NamedMeans(m);
      assert forall i | 0 <= i < |img.blobs| :: img.blobs[i] in img.blobs;
      assert ImageOk(k, img, records) ==> ImageThere(k, img, records, m);
    }
  }

  lemma NamedMeans(m: Manifest)
    ensures forall d :: Named(m, d) <==> Includes(Payload(m), d)
  {
    var all := Payload(m);
    assert all[0] == m.config && forall i | 0 <= i < |m.layers| :: all[i + 1] == m.layers[i];
    forall d ensures Named(m, d) <==> Includes(all, d) {
      if Includes(all, d) {
        var i :| 0 <= i < |all| && all[i].digest == d;
        assert i > 0 ==> m.layers[i - 1].digest == d;
      }
      if Named(m, d) && d != m.config.digest {
        var i :| 0 <= i < |m.layers| && m.layers[i].digest == d;
        assert all[i + 1].digest == d;
      }
    }
  }

  lemma KeptMeans(k: Disk, img: Image)
    requires img.index.Some?
    ensures (exists x :: IndexThere(k, img, x)) <==>
      && ReadManifest(k, img.index.value).Some? && IsIndex(img.index.value.mediaType)
      && Ref(img.digest, img.mediaType, img.size) in ReadManifest(k, img.index.value).value.manifests
  {
    hide ReadManifest, Document;
    var r := img.index.value;
    forall x ensures ReadManifest(k, r) == Some(x) <==> Document(k, r.digest, r.mediaType, r.size, x) {
      ReadMeans(k, r, x);
    }
    if ReadManifest(k, r).Some? {
      var x := ReadManifest(k, r).value;
      if Ref(img.digest, img.mediaType, img.size) in x.manifests {
        var i :| 0 <= i < |x.manifests| && x.manifests[i] == Ref(img.digest, img.mediaType, img.size);
        assert IsIndex(r.mediaType) ==> IndexThere(k, img, x);
      }
    }
  }

  /** The entry of an index that allows a child is the last of its digest, and says the same. */
  ghost predicate Allowed(k: Disk, c: Ref, entries: seq<Ref>)
  {
    && k.isDigest(c.digest) && 1 <= c.size
    && c.mediaType in {"application/vnd.docker.distribution.manifest.v2+json", "application/vnd.oci.image.manifest.v1+json",
                       "application/vnd.docker.distribution.manifest.list.v2+json", "application/vnd.oci.image.index.v1+json"}
    && exists i :: 0 <= i < |entries| && entries[i].digest == c.digest && entries[i].size == c.size
                   && entries[i].mediaType == c.mediaType && forall j | i < j < |entries| :: entries[j].digest != c.digest
  }

  lemma {:induction false} LastMeans(entries: seq<Ref>, c: Ref)
    ensures LastWith(entries, c.digest) == Some(c) <==>
      exists i :: 0 <= i < |entries| && entries[i] == c && forall j | i < j < |entries| :: entries[j].digest != c.digest
  {
    if entries != [] && entries[|entries| - 1].digest != c.digest {
      var init := entries[..|entries| - 1];
      LastMeans(init, c);
      if i :| 0 <= i < |entries| && entries[i] == c && forall j | i < j < |entries| :: entries[j].digest != c.digest {
        assert init[i] == c;
      }
      if LastWith(init, c.digest) == Some(c) {
        var i :| 0 <= i < |init| && init[i] == c && forall j | i < j < |init| :: init[j].digest != c.digest;
        assert entries[i] == c;
      }
    }
  }

  /** What a sound artifact record has: its document; if it is an index, an entry for each of its children
      and no blob that is not on disk, else everything its manifest names. */
  ghost predicate ArtifactThere(k: Disk, a: Artifact, m: Manifest)
  {
    && Document(k, a.digest, a.mediaType, a.size, m)
    && (if IndexType(a.mediaType) then
          && (forall i | 0 <= i < |a.blobs| :: Present(k, a.blobs[i].digest, a.blobs[i].size))
          && forall i | 0 <= i < |m.manifests| :: Allowed(k, m.manifests[i], a.manifests)
        else AllHeld(k, m, a.blobs))
  }

  lemma ArtifactMeans(k: Disk, a: Artifact)
    ensures ArtifactOk(k, a) <==> ArtifactIsThere(k, a)
  {
    hide ReadManifest, PayloadOk, Document, AllHeld, BlobsOk, Present, ChildOk, Allowed;
    forall m ensures ReadManifest(k, RefOf(a)) == Some(m) <==> Document(k, a.digest, a.mediaType, a.size, m) {
      ReadMeans(k, RefOf(a), m);
    }
    if ReadManifest(k, RefOf(a)).Some? {
      var m := ReadManifest(k, RefOf(a)).value;
      PayloadMeans(k, m, a.blobs);
      BlobsMean(k, a.blobs);
      forall c ensures ChildOk(k, c, a.manifests) <==> Allowed(k, c, a.manifests) {
        ChildMeans(k, c, a.manifests);
      }
      assert forall i | 0 <= i < |m.manifests| :: m.manifests[i] in m.manifests;
      assert ArtifactOk(k, a) <==> ArtifactThere(k, a, m);
    }
  }

  lemma BlobsMean(k: Disk, blobs: seq<Blob>)
    ensures BlobsOk(k, blobs) <==> forall i | 0 <= i < |blobs| :: Present(k, blobs[i].digest, blobs[i].size)
  {
    assert forall i | 0 <= i < |blobs| :: blobs[i] in blobs;
  }

  lemma ChildMeans(k: Disk, c: Ref, entries: seq<Ref>)
    ensures ChildOk(k, c, entries) <==> Allowed(k, c, entries)
  {
    hide LastWith;
    LastMeans(entries, c);
    if i :| 0 <= i < |entries| && entries[i].digest == c.digest && entries[i].size == c.size
            && entries[i].mediaType == c.mediaType && forall j | i < j < |entries| :: entries[j].digest != c.digest {
      assert entries[i] == c;
    }
  }

  // ---- the records ----

  /** An artifact that an image of a repository records. */
  ghost predicate Reported(s: Repo, a: Artifact)
  {
    exists i, j :: 0 <= i < |s.images| && 0 <= j < |s.images[i].artifacts| && s.images[i].artifacts[j] == a
  }

  lemma {:induction false} ReportedAre(images: seq<Image>, a: Artifact)
    ensures a in AllArtifacts(images) <==>
      exists i, j :: 0 <= i < |images| && 0 <= j < |images[i].artifacts| && images[i].artifacts[j] == a
  {
    if images != [] {
      var n := |images| - 1;
      var init := images[..n];
      ReportedAre(init, a);
      if a in images[n].artifacts {
        var j :| 0 <= j < |images[n].artifacts| && images[n].artifacts[j] == a;
      } else if i, j :| 0 <= i < |images| && 0 <= j < |images[i].artifacts| && images[i].artifacts[j] == a {
        assert i < n ==> init[i].artifacts[j] == a;
      }
      if a in AllArtifacts(init) {
        var i, j :| 0 <= i < |init| && 0 <= j < |init[i].artifacts| && init[i].artifacts[j] == a;
        assert images[i].artifacts[j] == a;
      }
    }
  }

  /** The blobs, and the entries, that the records of a digest list, in their order. */
  function BlobsOf(list: seq<Artifact>, d: string): seq<Blob>
  {
    if list == [] then []
    else BlobsOf(list[..|list| - 1], d) + if list[|list| - 1].digest == d then list[|list| - 1].blobs else []
  }

  function EntriesOf(list: seq<Artifact>, d: string): seq<Ref>
  {
    if list == [] then []
    else EntriesOf(list[..|list| - 1], d) + if list[|list| - 1].digest == d then list[|list| - 1].manifests else []
  }

  /** Records can be joined if their digests are valid and those of a digest agree on media type and size. */
  ghost predicate Joinable(k: Disk, list: seq<Artifact>)
  {
    && (forall i | 0 <= i < |list| :: k.isDigest(list[i].digest))
    && forall i, j | 0 <= i < |list| && 0 <= j < |list| && list[i].digest == list[j].digest ::
         list[i].mediaType == list[j].mediaType && list[i].size == list[j].size
  }

  /** One record a digest, with all that those of the digest list. */
  ghost predicate JoinOf(list: seq<Artifact>, records: map<string, Artifact>)
  {
    && (forall d :: d in records <==> exists i :: 0 <= i < |list| && list[i].digest == d)
    && (forall i | 0 <= i < |list| && list[i].digest in records :: JoinedWith(records[list[i].digest], list[i]))
    && forall d | d in records :: records[d].digest == d && records[d].blobs == BlobsOf(list, d) && records[d].manifests == EntriesOf(list, d)
  }

  ghost predicate JoinedWith(r: Artifact, a: Artifact) { r.digest == a.digest && r.mediaType == a.mediaType && r.size == a.size }

  lemma {:induction false} JoinMeans(k: Disk, list: seq<Artifact>)
    ensures AddRecords(k, list).Some? <==> Joinable(k, list)
    ensures AddRecords(k, list).Some? ==> JoinOf(list, AddRecords(k, list).value)
  {
    if list != [] {
      var n := |list| - 1;
      var init, a := list[..n], list[n];
      JoinMeans(k, init);
      if AddRecords(k, init).Some? {
        JoinNext(k, init, a, AddRecords(k, init).value);
        assert init + [a] == list;
      } else {
        assert forall i | 0 <= i < n :: init[i] == list[i];
      }
    }
  }

  lemma JoinNext(k: Disk, list: seq<Artifact>, a: Artifact, records: map<string, Artifact>)
    requires Joinable(k, list) && JoinOf(list, records)
    ensures AddRecord(k, records, a).Some? <==> Joinable(k, list + [a])
    ensures AddRecord(k, records, a).Some? ==> JoinOf(list + [a], AddRecord(k, records, a).value)
  {
    JoinableNext(k, list, a, records);
    hide BlobsOf, EntriesOf, Joinable, AddRecord, JoinedWith;
    if AddRecord(k, records, a).Some? {
      var now := AddRecord(k, records, a).value;
      JoinAdded(k, list, a, records);
      JoinKeys(list, a, records, now);
      JoinWith(list, a, records, now);
      JoinLists(k, list, a, records);
    }
  }

  lemma JoinAdded(k: Disk, list: seq<Artifact>, a: Artifact, records: map<string, Artifact>)
    requires AddRecord(k, records, a).Some? && forall d | d in records :: records[d].digest == d
    ensures var now := AddRecord(k, records, a).value;
      && now.Keys == records.Keys + {a.digest} && JoinedWith(now[a.digest], a)
      && forall d | d in records :: JoinedWith(now[d], records[d])
  {
  }

  lemma JoinLists(k: Disk, list: seq<Artifact>, a: Artifact, records: map<string, Artifact>)
    requires JoinOf(list, records) && AddRecord(k, records, a).Some?
    ensures var now := AddRecord(k, records, a).value;
      forall d | d in now :: now[d].digest == d && now[d].blobs == BlobsOf(list + [a], d) && now[d].manifests == EntriesOf(list + [a], d)
  {
    hide BlobsOf, EntriesOf, JoinedWith;
    var now := AddRecord(k, records, a).value;
    forall d | d in now
      ensures now[d].digest == d && now[d].blobs == BlobsOf(list + [a], d) && now[d].manifests == EntriesOf(list + [a], d)
    {
      ListsNext(list, a, d);
      if d == a.digest && d !in records {
        NoneOf(list, d);
      }
    }
  }

  lemma JoinWith(list: seq<Artifact>, a: Artifact, records: map<string, Artifact>, now: map<string, Artifact>)
    requires forall i | 0 <= i < |list| && list[i].digest in records :: JoinedWith(records[list[i].digest], list[i])
    requires forall i | 0 <= i < |list| :: list[i].digest in records
    requires a.digest in now && JoinedWith(now[a.digest], a)
    requires forall d | d in records :: d in now && JoinedWith(now[d], records[d])
    ensures forall i | 0 <= i < |list + [a]| && (list + [a])[i].digest in now :: JoinedWith(now[(list + [a])[i].digest], (list + [a])[i])
  {
    var more := list + [a];
    forall i | 0 <= i < |more| && more[i].digest in now ensures JoinedWith(now[more[i].digest], more[i]) {
      if i < |list| {
        assert JoinedWith(records[list[i].digest], list[i]);
      }
    }
  }

  lemma JoinableNext(k: Disk, list: seq<Artifact>, a: Artifact, records: map<string, Artifact>)
    requires Joinable(k, list) && JoinOf(list, records)
    ensures AddRecord(k, records, a).Some? <==> Joinable(k, list + [a])
  {
    hide BlobsOf, EntriesOf;
    var more := list + [a];
    assert more[|list|] == a && forall i | 0 <= i < |list| :: more[i] == list[i];
    forall i | 0 <= i < |list| ensures JoinedWith(records[list[i].digest], list[i]) {
    }
    if a.digest in records {
      var i :| 0 <= i < |list| && list[i].digest == a.digest;
      assert more[i].digest == more[|list|].digest;
    }
  }

  lemma JoinKeys(list: seq<Artifact>, a: Artifact, records: map<string, Artifact>, now: map<string, Artifact>)
    requires now.Keys == records.Keys + {a.digest}
    requires forall d :: d in records <==> exists i :: 0 <= i < |list| && list[i].digest == d
    ensures forall d :: d in now <==> exists i :: 0 <= i < |list + [a]| && (list + [a])[i].digest == d
  {
    var more := list + [a];
    assert more[|list|] == a;
    forall d ensures d in now <==> exists i :: 0 <= i < |more| && more[i].digest == d {
      if d in records {
        var i :| 0 <= i < |list| && list[i].digest == d;
        assert more[i].digest == d;
      }
      if i :| 0 <= i < |more| && more[i].digest == d {
        assert i < |list| ==> list[i].digest == d;
      }
    }
  }

  lemma ListsNext(list: seq<Artifact>, a: Artifact, d: string)
    ensures BlobsOf(list + [a], d) == BlobsOf(list, d) + if a.digest == d then a.blobs else []
    ensures EntriesOf(list + [a], d) == EntriesOf(list, d) + if a.digest == d then a.manifests else []
  {
    assert (list + [a])[..|list|] == list;
  }

  lemma {:induction false} NoneOf(list: seq<Artifact>, d: string)
    requires forall i | 0 <= i < |list| :: list[i].digest != d
    ensures BlobsOf(list, d) == [] && EntriesOf(list, d) == []
  {
    if list != [] {
      NoneOf(list[..|list| - 1], d);
    }
  }

  /** The records of a repository: those of its images joined, and, if it has an index, with its own. The
      index must be of version 1, have both maps, and name each record under its digest. */
  ghost predicate RecordsThere(k: Disk, s: Repo, records: map<string, Artifact>)
  {
    var list := AllArtifacts(s.images);
    && Joinable(k, list)
    && (s.index.None? ==> JoinOf(list, records))
    && (s.index.Some? ==>
          && s.index.value.version == 1 && s.index.value.artifacts.Some? && s.index.value.tags.Some?
          && JoinedToIndex(k, list, s.index.value.artifacts.value, records))
  }

  ghost predicate JoinedToIndex(k: Disk, list: seq<Artifact>, indexed: map<string, Artifact>, records: map<string, Artifact>)
  {
    && (forall d | d in indexed :: indexed[d].digest == d && k.isDigest(d))
    && (forall i | 0 <= i < |list| && list[i].digest in indexed :: JoinedWith(indexed[list[i].digest], list[i]))
    && (forall d :: d in records <==> d in indexed || exists i :: 0 <= i < |list| && list[i].digest == d)
    && (forall i | 0 <= i < |list| && list[i].digest in records :: JoinedWith(records[list[i].digest], list[i]))
    && forall d | d in records ::
         && records[d].digest == d && (d in indexed ==> JoinedWith(records[d], indexed[d]))
         && records[d].blobs == BlobsOf(list, d) + (if d in indexed then indexed[d].blobs else [])
         && records[d].manifests == EntriesOf(list, d) + (if d in indexed then indexed[d].manifests else [])
  }

  lemma RecordsMean(k: Disk, s: Repo)
    ensures Records(k, s).Some? <==> exists records :: RecordsThere(k, s, records)
    ensures Records(k, s).Some? ==> RecordsThere(k, s, Records(k, s).value)
  {
    hide JoinOf, Joinable, JoinedToIndex, AddRecords, AllArtifacts, Fits, Union;
    var list := AllArtifacts(s.images);
    JoinMeans(k, list);
    if Joinable(k, list) {
      if s.index.None? {
        assert RecordsThere(k, s, AddRecords(k, list).value);
      } else if s.index.value.artifacts.Some? {
        var images, indexed := AddRecords(k, list).value, s.index.value.artifacts.value;
        IndexMeans(k, list, images, indexed);
        if records :| RecordsThere(k, s, records) {
          assert JoinedToIndex(k, list, indexed, records);
        }
        if Records(k, s).Some? {
          assert RecordsThere(k, s, Union(images, indexed));
        }
      }
    }
  }

  lemma IndexMeans(k: Disk, list: seq<Artifact>, images: map<string, Artifact>, indexed: map<string, Artifact>)
    requires JoinOf(list, images)
    ensures var fit := forall d | d in indexed :: Fits(k, images, d, indexed[d]);
      && (fit ==> JoinedToIndex(k, list, indexed, Union(images, indexed)))
      && forall records | JoinedToIndex(k, list, indexed, records) :: fit
  {
    hide BlobsOf, EntriesOf, Fits, JoinedWith, JoinedToIndex;
    if records :| JoinedToIndex(k, list, indexed, records) {
      IndexFits(k, list, images, indexed, records);
    }
    if forall d | d in indexed :: Fits(k, images, d, indexed[d]) {
      IndexJoins(k, list, images, indexed);
    }
  }

  lemma IndexFits(k: Disk, list: seq<Artifact>, images: map<string, Artifact>, indexed: map<string, Artifact>, records: map<string, Artifact>)
    requires JoinOf(list, images) && JoinedToIndex(k, list, indexed, records)
    ensures forall d | d in indexed :: Fits(k, images, d, indexed[d])
  {
    hide BlobsOf, EntriesOf;
    forall d | d in indexed ensures Fits(k, images, d, indexed[d]) {
      if d in images {
        var i :| 0 <= i < |list| && list[i].digest == d;
        assert JoinedWith(images[list[i].digest], list[i]) && JoinedWith(indexed[list[i].digest], list[i]);
      }
    }
  }

  lemma IndexJoins(k: Disk, list: seq<Artifact>, images: map<string, Artifact>, indexed: map<string, Artifact>)
    requires JoinOf(list, images) && forall d | d in indexed :: Fits(k, images, d, indexed[d])
    ensures JoinedToIndex(k, list, indexed, Union(images, indexed))
  {
    hide BlobsOf, EntriesOf, JoinOf;
    var all := Union(images, indexed);
    UnionLists(k, list, images, indexed);
    assert forall d | d in images :: d in all && JoinedWith(all[d], images[d]) by {
      forall d | d in images ensures d in all && JoinedWith(all[d], images[d]) {
      }
    }
    IndexAgrees(k, list, images, indexed);
  }

  lemma IndexAgrees(k: Disk, list: seq<Artifact>, images: map<string, Artifact>, indexed: map<string, Artifact>)
    requires JoinOf(list, images) && forall d | d in indexed :: Fits(k, images, d, indexed[d])
    ensures forall d | d in indexed :: indexed[d].digest == d && k.isDigest(d)
    ensures forall i | 0 <= i < |list| && list[i].digest in indexed :: JoinedWith(indexed[list[i].digest], list[i])
    ensures forall i | 0 <= i < |list| && list[i].digest in Union(images, indexed) :: JoinedWith(Union(images, indexed)[list[i].digest], list[i])
    ensures forall d :: d in Union(images, indexed) <==> d in indexed || exists i :: 0 <= i < |list| && list[i].digest == d
  {
    hide BlobsOf, EntriesOf;
    forall d | d in indexed ensures indexed[d].digest == d && k.isDigest(d) {
      assert Fits(k, images, d, indexed[d]);
    }
    forall i | 0 <= i < |list| && list[i].digest in indexed ensures JoinedWith(indexed[list[i].digest], list[i]) {
      assert Fits(k, images, list[i].digest, indexed[list[i].digest]) && JoinedWith(images[list[i].digest], list[i]);
    }
    forall i | 0 <= i < |list| && list[i].digest in Union(images, indexed)
      ensures JoinedWith(Union(images, indexed)[list[i].digest], list[i])
    {
      assert JoinedWith(images[list[i].digest], list[i]);
    }
  }

  lemma UnionLists(k: Disk, list: seq<Artifact>, images: map<string, Artifact>, indexed: map<string, Artifact>)
    requires JoinOf(list, images) && forall d | d in indexed :: Fits(k, images, d, indexed[d])
    ensures var all := Union(images, indexed);
      forall d | d in all ::
        && all[d].digest == d && (d in indexed ==> JoinedWith(all[d], indexed[d]))
        && all[d].blobs == BlobsOf(list, d) + (if d in indexed then indexed[d].blobs else [])
        && all[d].manifests == EntriesOf(list, d) + (if d in indexed then indexed[d].manifests else [])
  {
    hide BlobsOf, EntriesOf;
    var all := Union(images, indexed);
    forall d | d in all
      ensures all[d].digest == d && (d in indexed ==> JoinedWith(all[d], indexed[d]))
      ensures all[d].blobs == BlobsOf(list, d) + (if d in indexed then indexed[d].blobs else [])
      ensures all[d].manifests == EntriesOf(list, d) + (if d in indexed then indexed[d].manifests else [])
    {
      assert d in indexed ==> Fits(k, images, d, indexed[d]);
      if d !in images {
        NoneOf(list, d);
      }
    }
  }

  // ---- the verdict ----

  /** Every child that the document of an index names is a record of the size and media type it names. */
  ghost predicate ChildrenThere(k: Disk, records: map<string, Artifact>)
  {
    forall d, m | d in records && IndexType(records[d].mediaType) && Document(k, d, records[d].mediaType, records[d].size, m) ::
      forall i | 0 <= i < |m.manifests| :: var c := m.manifests[i];
        c.digest in records && records[c.digest].size == c.size && records[c.digest].mediaType == c.mediaType
  }

  /** What a tag of an image shows. */
  function ShownBy(img: Image): string { if img.index.None? then img.digest else img.index.value.digest }

  /** Tags are valid and name one digest each: those of the images; and those of the index, which name
      records, or, without one, those of the artifacts. */
  ghost predicate TagsThere(k: Disk, s: Repo, records: set<string>)
  {
    var list := AllArtifacts(s.images);
    && (forall i | 0 <= i < |s.images| && s.images[i].tag != "" :: k.validTag(s.images[i].tag) && k.isDigest(ShownBy(s.images[i])))
    && (forall i, j | 0 <= i < j < |s.images| && s.images[i].tag == s.images[j].tag != "" ::
          ShownBy(s.images[i]) == ShownBy(s.images[j]))
    && (s.index.None? ==>
          && (forall i | 0 <= i < |list| && list[i].tag != "" :: k.validTag(list[i].tag) && k.isDigest(list[i].digest))
          && (forall i, j | 0 <= i < j < |list| && list[i].tag == list[j].tag != "" :: list[i].digest == list[j].digest))
    && (s.index.Some? && s.index.value.tags.Some? ==> forall t | t in s.index.value.tags.value ::
          t != "" && k.validTag(t) && k.isDigest(s.index.value.tags.value[t]) && s.index.value.tags.value[t] in records)
  }

  lemma TagsMean(k: Disk, s: Repo, records: set<string>)
    ensures TagsOk(k, s, records) <==> TagsThere(k, s, records)
  {
    var list := AllArtifacts(s.images);
    ImageNamesMean(k, s.images);
    ArtifactNamesMean(k, list);
  }

  lemma ImageNamesMean(k: Disk, images: seq<Image>)
    ensures Agree(k, ImageNames(images)) <==>
      && (forall i | 0 <= i < |images| && images[i].tag != "" :: k.validTag(images[i].tag) && k.isDigest(ShownBy(images[i])))
      && (forall i, j | 0 <= i < j < |images| && images[i].tag == images[j].tag != "" :: ShownBy(images[i]) == ShownBy(images[j]))
  {
    var names := ImageNames(images);
    assert forall i | 0 <= i < |images| :: names[i] == Naming(images[i].tag, ShownBy(images[i]));
    if forall i | 0 <= i < |images| && images[i].tag != "" :: k.validTag(images[i].tag) && k.isDigest(ShownBy(images[i])) {
      assert forall i | 0 <= i < |names| :: NamingOk(k, names[i]);
    }
    if Agree(k, names) {
      forall i | 0 <= i < |images| && images[i].tag != "" ensures k.validTag(images[i].tag) && k.isDigest(ShownBy(images[i])) {
        assert NamingOk(k, names[i]);
      }
      forall i, j | 0 <= i < j < |images| && images[i].tag == images[j].tag != "" ensures ShownBy(images[i]) == ShownBy(images[j]) {
        assert names[i].tag == names[j].tag;
      }
    }
  }

  lemma ArtifactNamesMean(k: Disk, list: seq<Artifact>)
    ensures Agree(k, ArtifactNames(list)) <==>
      && (forall i | 0 <= i < |list| && list[i].tag != "" :: k.validTag(list[i].tag) && k.isDigest(list[i].digest))
      && (forall i, j | 0 <= i < j < |list| && list[i].tag == list[j].tag != "" :: list[i].digest == list[j].digest)
  {
    var names := ArtifactNames(list);
    if Agree(k, names) {
      forall i | 0 <= i < |list| && list[i].tag != "" ensures k.validTag(list[i].tag) && k.isDigest(list[i].digest) {
        assert NamingOk(k, names[i]);
      }
      forall i, j | 0 <= i < j < |list| && list[i].tag == list[j].tag != "" ensures list[i].digest == list[j].digest {
        assert names[i].tag == names[j].tag;
      }
    }
  }

  /** What makes a repository sound, read off its file and the disk: its name, images, records that can be
      joined, with everything they and the images name there, complete graphs and unambiguous tags. */
  lemma SoundMeans(k: Disk, name: string, file: Option<Repo>)
    ensures Sound(k, name, file) <==>
      && k.validName(name) && file.Some? && file.value.name == name && |file.value.images| >= 1
      && Records(k, file.value).Some?
      && var s, records := file.value, Records(k, file.value).value;
        && RecordsThere(k, s, records)
        && (forall d | d in records :: ArtifactIsThere(k, records[d]))
        && (forall i | 0 <= i < |s.images| :: ImageIsThere(k, s.images[i], records.Keys))
        && ChildrenThere(k, records) && TagsThere(k, s, records.Keys)
  {
    hide ArtifactOk, ImageOk, TagsOk, TagsThere, RecordsThere, ChildrenThere, ArtifactIsThere, ImageIsThere, Closed, Records;
    if file.Some? {
      var s := file.value;
      RecordsMean(k, s);
      if Records(k, s).Some? {
        var records := Records(k, s).value;
        forall d | d in records ensures ArtifactOk(k, records[d]) <==> ArtifactIsThere(k, records[d]) {
          ArtifactMeans(k, records[d]);
        }
        forall i | 0 <= i < |s.images| ensures s.images[i] in s.images {
        }
        forall i | 0 <= i < |s.images| ensures ImageOk(k, s.images[i], records.Keys) <==> ImageIsThere(k, s.images[i], records.Keys) {
          ImageMeans(k, s.images[i], records.Keys);
        }
        TagsMean(k, s, records.Keys);
        if AllArtifactsOk(k, records) {
          ClosedMeans(k, records);
        }
      }
    }
  }

  ghost predicate ArtifactIsThere(k: Disk, a: Artifact) { exists m :: ArtifactThere(k, a, m) }

  ghost predicate ImageIsThere(k: Disk, img: Image, records: set<string>) { exists m :: ImageThere(k, img, records, m) }

  lemma ClosedMeans(k: Disk, records: map<string, Artifact>)
    requires AllArtifactsOk(k, records) && forall d | d in records :: records[d].digest == d
    ensures Closed(RebuiltArtifacts(k, records)) <==> ChildrenThere(k, records)
  {
    hide ReadManifest, Document, PayloadOk, ChildrenOk, BlobsOk;
    var all := RebuiltArtifacts(k, records);
    forall d | d in records ensures all[d] == Described(records[d], ReadManifest(k, RefOf(records[d])).value) {
      assert ArtifactOk(k, records[d]);
    }
    forall d, m | d in records
      ensures ReadManifest(k, RefOf(records[d])) == Some(m) <==> Document(k, d, records[d].mediaType, records[d].size, m)
    {
      ReadMeans(k, RefOf(records[d]), m);
    }
    if Closed(all) {
      forall d, m, i | d in records && IndexType(records[d].mediaType) && Document(k, d, records[d].mediaType, records[d].size, m)
                       && 0 <= i < |m.manifests|
        ensures var c := m.manifests[i];
          c.digest in records && records[c.digest].size == c.size && records[c.digest].mediaType == c.mediaType
      {
        assert ReadManifest(k, RefOf(records[d])) == Some(m);
        assert m.manifests[i] in all[d].manifests;
      }
    }
    if ChildrenThere(k, records) {
      forall d, c | d in all && c in all[d].manifests
        ensures c.digest in all && all[c.digest].size == c.size && all[c.digest].mediaType == c.mediaType
      {
        var m := ReadManifest(k, RefOf(records[d])).value;
        var i :| 0 <= i < |m.manifests| && m.manifests[i] == c;
      }
    }
  }

  /** The index that content and records give: of version 1; one entry a record, made of its document; and the
      tags of the index there was, or else those of the artifacts. */
  lemma RebuiltMeans(k: Disk, name: string, file: Option<Repo>)
    requires Sound(k, name, file)
    ensures var s, index := file.value, Rebuilt(k, name, file);
      && index.version == 1 && index.artifacts.Some? && index.tags.Some?
      && index.artifacts.value.Keys == Records(k, s).value.Keys
      && (forall d | d in index.artifacts.value :: EntryOf(k, index.artifacts.value[d], Records(k, s).value[d]))
      && (s.index.Some? ==> index.tags == s.index.value.tags)
      && (s.index.None? ==> forall t, d :: (t in index.tags.value && index.tags.value[t] == d) <==> TaggedAs(AllArtifacts(s.images), t, d))
  {
    hide ArtifactOk, ImageOk, TagsOk, Closed, Records, EntryOf;
    var s := file.value;
    var records := Records(k, s).value;
    forall d | d in records ensures EntryOf(k, RebuiltArtifacts(k, records)[d], records[d]) {
      assert ArtifactOk(k, records[d]);
      EntryMeans(k, records[d]);
    }
    if s.index.None? {
      var list := AllArtifacts(s.images);
      assert Agree(k, ArtifactNames(list)) by { hide *; AgreedTags(k, s, records.Keys); }
      TaggedMeans(k, list);
    } else {
      RecordsMean(k, s);
      HasTags(k, s);
    }
  }

  lemma HasTags(k: Disk, s: Repo)
    requires Records(k, s).Some? && s.index.Some?
    ensures s.index.value.tags.Some?
  {
  }

  lemma AgreedTags(k: Disk, s: Repo, records: set<string>)
    requires TagsOk(k, s, records) && s.index.None?
    ensures Agree(k, ArtifactNames(AllArtifacts(s.images)))
  {
  }

  ghost predicate TaggedAs(list: seq<Artifact>, t: string, d: string)
  {
    t != "" && exists i :: 0 <= i < |list| && list[i].tag == t && list[i].digest == d
  }

  lemma {:induction false} TaggedMeans(k: Disk, list: seq<Artifact>)
    requires Agree(k, ArtifactNames(list))
    ensures forall t, d :: (t in TagsOf(ArtifactNames(list)) && TagsOf(ArtifactNames(list))[t] == d) <==> TaggedAs(list, t, d)
  {
    if list != [] {
      var n := |list| - 1;
      var init, names := list[..n], ArtifactNames(list);
      assert ArtifactNames(init) == names[..n];
      assert forall i | 0 <= i < n :: names[i] == names[..n][i];
      TaggedMeans(k, init);
      var before, now := TagsOf(names[..n]), TagsOf(names);
      forall t, d ensures (t in now && now[t] == d) <==> TaggedAs(list, t, d) {
        if TaggedAs(init, t, d) {
          var i :| 0 <= i < n && init[i].tag == t && init[i].digest == d;
          assert list[i].tag == t && list[i].digest == d;
          assert names[i].tag == t && names[i].digest == d;
        }
        if TaggedAs(list, t, d) {
          var i :| 0 <= i < |list| && list[i].tag == t && list[i].digest == d;
          assert names[i].tag == t && names[i].digest == d;
          if i < n {
            assert init[i].tag == t && init[i].digest == d;
          }
        }
      }
    }
  }

  /** The entry of a record: as its document says, of an index its children, else its config and layers. */
  ghost predicate EntryOf(k: Disk, e: Artifact, r: Artifact)
  {
    exists m :: Document(k, r.digest, r.mediaType, r.size, m) && EntryFrom(e, r, m)
  }

  ghost predicate EntryFrom(e: Artifact, r: Artifact, m: Manifest)
  {
    && e.digest == r.digest && e.mediaType == r.mediaType && e.size == r.size && e.tag == "" && e.annotations == m.annotations
    && e.subject == (if m.subject.None? then "" else m.subject.value.digest)
    && (if IndexType(r.mediaType) then e.blobs == [] && e.manifests == m.manifests && e.artifactType == m.artifactType
        else
          && |e.blobs| == 1 + |m.layers| && e.blobs[0] == m.config && (forall i | 0 <= i < |m.layers| :: e.blobs[i + 1] == m.layers[i])
          && e.manifests == [] && e.artifactType == (if m.artifactType == "" then m.configType else m.artifactType))
  }

  lemma EntryMeans(k: Disk, r: Artifact)
    requires ArtifactOk(k, r)
    ensures EntryOf(k, CheckArtifact(k, r).value, r)
  {
    hide ReadManifest, Document, PayloadOk, ChildrenOk, BlobsOk;
    var m := ReadManifest(k, RefOf(r)).value;
    ReadMeans(k, RefOf(r), m);
    assert EntryFrom(Described(r, m), r, m);
  }

  /** A repository is clean exactly if it is sound and its index is that one. */
  lemma CleanMeans(k: Disk, name: string, file: Option<Repo>)
    ensures Clean(k, name, file) <==> Sound(k, name, file) && file.value.index.Some? && file.value.index.value == Rebuilt(k, name, file)
  {
    hide ReadManifest, TagsOk, Records;
  }
}
