/** The offline check of container repositories and its repair, which rebuilds an index from content. */
module Integrity {
  import opened Bytes

  const INDEX_VERSION := 1
  const MAX_MANIFEST := 4 * 1024 * 1024

  const DOCKER_MANIFEST := "application/vnd.docker.distribution.manifest.v2+json"
  const DOCKER_LIST := "application/vnd.docker.distribution.manifest.list.v2+json"
  const OCI_MANIFEST := "application/vnd.oci.image.manifest.v1+json"
  const OCI_INDEX := "application/vnd.oci.image.index.v1+json"

  datatype Blob = Blob(digest: string, size: int)

  /** A reference to a manifest or an index. */
  datatype Ref = Ref(digest: string, mediaType: string, size: int)

  datatype Artifact = Artifact(
    subject: string, tag: string, digest: string, mediaType: string, artifactType: string, size: int,
    annotations: map<string, string>, blobs: seq<Blob>, manifests: seq<Ref>)

  datatype Image = Image(
    tag: string, digest: string, mediaType: string, size: int, blobs: seq<Blob>, index: Option<Ref>, artifacts: seq<Artifact>)

  /** An artifact index; a file may lack either map. */
  datatype Index = Index(version: int, artifacts: Option<map<string, Artifact>>, tags: Option<map<string, string>>)

  /** The index file of a repository. */
  datatype Repo = Repo(name: string, images: seq<Image>, index: Option<Index>)

  /** A parsed manifest. */
  datatype Manifest = Manifest(
    schema: int, mediaType: string, config: Blob, configType: string, layers: seq<Blob>, manifests: seq<Ref>,
    subject: Option<Blob>, artifactType: string, annotations: map<string, string>)

  /** The syntax of names, and the content store: the size of a blob that is there and hashes to its
      name, and what it parses to as a manifest. */
  datatype Disk = Disk(
    validName: string -> bool, validTag: string -> bool, isDigest: string -> bool,
    blob: string -> Option<int>, manifest: string -> Option<Manifest>)

  datatype Issue =
    RepositoryInvalid | IndexInvalid | ContentInvalid | GraphIncomplete | TagsAmbiguous | IndexMissing | IndexInconsistent

  predicate Repairable(i: Issue) { i.IndexMissing? || i.IndexInconsistent? }

  predicate IsIndex(mediaType: string) { mediaType == DOCKER_LIST || mediaType == OCI_INDEX }

  predicate IsDocument(mediaType: string) { mediaType == DOCKER_MANIFEST || mediaType == OCI_MANIFEST || IsIndex(mediaType) }

  // ---- what a record is checked against ----

  /** checkBlob. */
  predicate BlobOk(k: Disk, b: Blob)
  {
    k.isDigest(b.digest) && b.size >= 0 && k.blob(b.digest) == Some(b.size)
  }

  predicate BlobsOk(k: Disk, blobs: seq<Blob>) { forall b | b in blobs :: BlobOk(k, b) }

  /** readManifest. */
  function ReadManifest(k: Disk, r: Ref): Option<Manifest>
  {
    if !IsDocument(r.mediaType) || r.size <= 0 || r.size > MAX_MANIFEST || !BlobOk(k, Blob(r.digest, r.size)) then None
    else
      var m := k.manifest(r.digest);
      if m.None? || m.value.schema != 2 || (m.value.mediaType != "" && m.value.mediaType != r.mediaType) then None
      else if m.value.subject.Some? && !(k.isDigest(m.value.subject.value.digest) && m.value.subject.value.size >= 0) then None
      else m
  }

  predicate Includes(blobs: seq<Blob>, digest: string) { exists i :: 0 <= i < |blobs| && blobs[i].digest == digest }

  /** The blobs a manifest needs. */
  function Payload(m: Manifest): seq<Blob> { [m.config] + m.layers }

  predicate PayloadOk(k: Disk, m: Manifest, authorized: seq<Blob>)
  {
    && m.config.digest != "" && BlobsOk(k, authorized)
    && forall b | b in Payload(m) :: Includes(authorized, b.digest) && BlobOk(k, b)
  }

  function LastWith(refs: seq<Ref>, digest: string): Option<Ref>
  {
    if refs == [] then None
    else if refs[|refs| - 1].digest == digest then Some(refs[|refs| - 1])
    else LastWith(refs[..|refs| - 1], digest)
  }

  predicate ChildOk(k: Disk, child: Ref, authorized: seq<Ref>)
  {
    LastWith(authorized, child.digest) == Some(child) && k.isDigest(child.digest) && child.size > 0 && IsDocument(child.mediaType)
  }

  predicate ChildrenOk(k: Disk, children: seq<Ref>, authorized: seq<Ref>)
  {
    forall c | c in children :: ChildOk(k, c, authorized)
  }

  function RefOf(a: Artifact): Ref { Ref(a.digest, a.mediaType, a.size) }

  predicate ArtifactOk(k: Disk, a: Artifact)
  {
    var m := ReadManifest(k, RefOf(a));
    && m.Some?
    && (IsIndex(a.mediaType) ==> BlobsOk(k, a.blobs) && ChildrenOk(k, m.value.manifests, a.manifests))
    && (!IsIndex(a.mediaType) ==> PayloadOk(k, m.value, a.blobs))
  }

  /** The record an artifact's content gives. */
  function Described(a: Artifact, m: Manifest): Artifact
  {
    Artifact(
      if m.subject.Some? then m.subject.value.digest else "", "", a.digest, a.mediaType,
      if m.artifactType != "" || IsIndex(a.mediaType) then m.artifactType else m.configType, a.size, m.annotations,
      if IsIndex(a.mediaType) then [] else Payload(m),
      if IsIndex(a.mediaType) then m.manifests else [])
  }

  /** checkArtifact. */
  function CheckArtifact(k: Disk, a: Artifact): (r: Option<Artifact>)
    ensures r.Some? ==> RefOf(r.value) == RefOf(a)
  {
    if ArtifactOk(k, a) then Some(Described(a, ReadManifest(k, RefOf(a)).value)) else None
  }

  /** checkImage. */
  predicate ImageOk(k: Disk, img: Image, artifacts: set<string>)
  {
    var m := ReadManifest(k, Ref(img.digest, img.mediaType, img.size));
    && m.Some?
    && (if IsIndex(img.mediaType) then img.blobs == [] && img.digest in artifacts
        else PayloadOk(k, m.value, img.blobs) && forall b | b in img.blobs :: Includes(Payload(m.value), b.digest))
    && (img.index.Some? ==>
          && ReadManifest(k, img.index.value).Some? && IsIndex(img.index.value.mediaType)
          && Ref(img.digest, img.mediaType, img.size) in ReadManifest(k, img.index.value).value.manifests)
  }

  // ---- what a repository records ----

  /** One more record of an artifact that may have others. */
  function AddRecord(k: Disk, records: map<string, Artifact>, a: Artifact): Option<map<string, Artifact>>
  {
    if !k.isDigest(a.digest) then None
    else if a.digest !in records then Some(records[a.digest := a])
    else if !SameIdentity(records[a.digest], a) then None
    else Some(records[a.digest := Joined(records[a.digest], a)])
  }

  predicate SameIdentity(a: Artifact, b: Artifact) { a.mediaType == b.mediaType && a.size == b.size }

  function Joined(a: Artifact, b: Artifact): Artifact
  {
    a.(blobs := a.blobs + b.blobs, manifests := a.manifests + b.manifests)
  }

  function AddRecords(k: Disk, list: seq<Artifact>): (records: Option<map<string, Artifact>>)
    ensures records.Some? ==> forall d | d in records.value :: records.value[d].digest == d && k.isDigest(d)
  {
    if list == [] then Some(map[])
    else
      var before := AddRecords(k, list[..|list| - 1]);
      if before.None? then None else AddRecord(k, before.value, list[|list| - 1])
  }

  function AllArtifacts(images: seq<Image>): seq<Artifact>
  {
    if images == [] then [] else AllArtifacts(images[..|images| - 1]) + images[|images| - 1].artifacts
  }

  /** The records of the images with those of the index. */
  predicate Fits(k: Disk, records: map<string, Artifact>, d: string, a: Artifact)
  {
    a.digest == d && k.isDigest(d) && (d in records ==> SameIdentity(records[d], a))
  }

  function Union(records: map<string, Artifact>, indexed: map<string, Artifact>): map<string, Artifact>
  {
    map d | d in records.Keys + indexed.Keys :: UnionAt(records, indexed, d)
  }

  function UnionAt(records: map<string, Artifact>, indexed: map<string, Artifact>, d: string): Artifact
    requires d in records || d in indexed
  {
    if d !in indexed then records[d] else if d !in records then indexed[d] else Joined(records[d], indexed[d])
  }

  /** containerIntegrityArtifactRecords. */
  function Records(k: Disk, s: Repo): (records: Option<map<string, Artifact>>)
    ensures records.Some? ==> forall d | d in records.value :: records.value[d].digest == d && k.isDigest(d)
  {
    var images := AddRecords(k, AllArtifacts(s.images));
    if images.None? || s.index.None? then images
    else if s.index.value.version != INDEX_VERSION || s.index.value.artifacts.None? || s.index.value.tags.None? then None
    else
      var indexed := s.index.value.artifacts.value;
      if forall d | d in indexed :: Fits(k, images.value, d, indexed[d]) then Some(Union(images.value, indexed)) else None
  }

  // ---- tags ----

  datatype Naming = Naming(tag: string, digest: string)

  predicate NamingOk(k: Disk, n: Naming) { n.tag == "" || (k.validTag(n.tag) && k.isDigest(n.digest)) }

  /** Every tag is valid and names one digest. */
  predicate Agree(k: Disk, names: seq<Naming>)
  {
    && (forall i | 0 <= i < |names| :: NamingOk(k, names[i]))
    && (forall i, j | 0 <= i < j < |names| && names[i].tag == names[j].tag != "" :: names[i].digest == names[j].digest)
  }

  function TagsOf(names: seq<Naming>): map<string, string>
  {
    if names == [] then map[]
    else
      var before, n := TagsOf(names[..|names| - 1]), names[|names| - 1];
      if n.tag == "" then before else before[n.tag := n.digest]
  }

  function ImageNames(images: seq<Image>): seq<Naming>
  {
    seq(|images|, i requires 0 <= i < |images| =>
      Naming(images[i].tag, if images[i].index.Some? then images[i].index.value.digest else images[i].digest))
  }

  function ArtifactNames(list: seq<Artifact>): seq<Naming>
  {
    seq(|list|, i requires 0 <= i < |list| => Naming(list[i].tag, list[i].digest))
  }

  /** containerIntegrityTags: what the tags of a rebuilt index are checked for. */
  predicate TagsOk(k: Disk, s: Repo, artifacts: set<string>)
  {
    && Agree(k, ImageNames(s.images))
    && (s.index.None? ==> Agree(k, ArtifactNames(AllArtifacts(s.images))))
    && (s.index.Some? && s.index.value.tags.Some? ==> forall t | t in s.index.value.tags.value ::
          TagOk(k, t, s.index.value.tags.value[t], artifacts))
  }

  predicate TagOk(k: Disk, t: string, d: string, artifacts: set<string>)
  {
    d in artifacts && t != "" && k.validTag(t) && k.isDigest(d)
  }

  function Tags(s: Repo): map<string, string>
  {
    if s.index.None? then TagsOf(ArtifactNames(AllArtifacts(s.images)))
    else if s.index.value.tags.None? then map[] else s.index.value.tags.value
  }

  // ---- the verdict ----

  /** validateStoredContainerGraph. */
  predicate Closed(artifacts: map<string, Artifact>)
  {
    forall d | d in artifacts :: forall c | c in artifacts[d].manifests ::
      c.digest in artifacts && artifacts[c.digest].size == c.size && artifacts[c.digest].mediaType == c.mediaType
  }

  predicate AllArtifactsOk(k: Disk, records: map<string, Artifact>) { forall d | d in records :: ArtifactOk(k, records[d]) }

  function RebuiltArtifacts(k: Disk, records: map<string, Artifact>): map<string, Artifact>
    requires AllArtifactsOk(k, records)
  {
    map d | d in records :: CheckArtifact(k, records[d]).value
  }

  /** The file of a repository is there, under a valid name that it bears, and has images. */
  predicate Readable(k: Disk, name: string, file: Option<Repo>)
  {
    k.validName(name) && file.Some? && file.value.name == name && file.value.images != []
  }

  predicate Gathered(k: Disk, name: string, file: Option<Repo>) { Readable(k, name, file) && Records(k, file.value).Some? }

  /** A repository that content and records justify, whatever its index says. */
  predicate Sound(k: Disk, name: string, file: Option<Repo>)
  {
    && k.validName(name) && file.Some? && file.value.name == name && file.value.images != []
    && Records(k, file.value).Some?
    && var records := Records(k, file.value).value;
      && AllArtifactsOk(k, records)
      && (forall img | img in file.value.images :: ImageOk(k, img, records.Keys))
      && Closed(RebuiltArtifacts(k, records)) && TagsOk(k, file.value, records.Keys)
  }

  /** The index its content and records give a repository. */
  function Rebuilt(k: Disk, name: string, file: Option<Repo>): Index
    requires Sound(k, name, file)
  {
    Index(INDEX_VERSION, Some(RebuiltArtifacts(k, Records(k, file.value).value)), Some(Tags(file.value)))
  }

  /** containerIntegrityIndexIssue. */
  function Verdict(index: Option<Index>, rebuilt: Index): seq<Issue>
  {
    if index.None? then [IndexMissing] else if index.value != rebuilt then [IndexInconsistent] else []
  }

  predicate CanRepair(issues: seq<Issue>) { forall i | i in issues :: Repairable(i) }

  /** What checking a repository reports once its records are gathered. */
  function IssuesOf(content: bool, closed: bool, tags: bool, index: Option<Index>, rebuilt: Index): (issues: seq<Issue>)
    ensures content && closed && tags ==> issues == Verdict(index, rebuilt)
    ensures CanRepair(issues) <==> content && closed && tags
    ensures RepositoryInvalid !in issues && IndexInvalid !in issues && (ContentInvalid in issues <==> !content)
    ensures (GraphIncomplete in issues <==> !closed) && (TagsAmbiguous in issues <==> !tags)
    ensures (IndexMissing in issues <==> index.None?) && (IndexInconsistent in issues <==> index.Some? && index.value != rebuilt)
  {
    var issues := (if content then [] else [ContentInvalid]) + (if closed then [] else [GraphIncomplete]) +
      (if tags then [] else [TagsAmbiguous]) + Verdict(index, rebuilt);
    assert !content ==> ContentInvalid in issues;
    assert !closed ==> GraphIncomplete in issues;
    assert !tags ==> TagsAmbiguous in issues;
    issues
  }

  // ---- repair is idempotent and stays within what was recorded ----

  function Repaired(k: Disk, name: string, file: Option<Repo>): Option<Repo>
    requires Sound(k, name, file)
  {
    Some(file.value.(index := Some(Rebuilt(k, name, file))))
  }

  /** Checking a record again with what its content gave added to it gives the same. */
  lemma SameAgain(k: Disk, a: Artifact, b: Artifact, blobs: seq<Blob>, manifests: seq<Ref>)
    requires ArtifactOk(k, a) && BlobsOk(k, blobs) && RefOf(b) == RefOf(a)
    requires var r := CheckArtifact(k, a).value;
      b.blobs == blobs + r.blobs && b.manifests == manifests + r.manifests
    ensures CheckArtifact(k, b) == CheckArtifact(k, a)
  {
    var m := ReadManifest(k, RefOf(a)).value;
    if IsIndex(a.mediaType) {
      forall c | c in m.manifests ensures ChildOk(k, c, b.manifests) {
        assert ChildOk(k, c, a.manifests);
        LastOfOwn(k, m.manifests, a.manifests, c);
        LastAfter(manifests, m.manifests, c);
      }
    } else {
      forall x | x in Payload(m) ensures Includes(b.blobs, x.digest) {
        IncludesAfter(blobs, Payload(m), x);
      }
    }
  }

  lemma IncludesAfter(before: seq<Blob>, blobs: seq<Blob>, x: Blob)
    requires x in blobs
    ensures Includes(before + blobs, x.digest)
  {
    var i :| 0 <= i < |blobs| && blobs[i] == x;
    assert (before + blobs)[|before| + i] == x;
  }

  /** Children that are the authorized ones of their digests are so among themselves. */
  lemma {:induction false} LastOfOwn(k: Disk, children: seq<Ref>, authorized: seq<Ref>, c: Ref)
    requires c in children && forall x | x in children :: LastWith(authorized, x.digest) == Some(x)
    ensures LastWith(children, c.digest) == Some(c)
  {
    var n := |children| - 1;
    if children[n].digest == c.digest {
      assert LastWith(authorized, children[n].digest) == Some(children[n]) && LastWith(authorized, c.digest) == Some(c);
    } else {
      assert c in children[..n];
      LastOfOwn(k, children[..n], authorized, c);
    }
  }

  lemma {:induction false} LastAfter(before: seq<Ref>, refs: seq<Ref>, c: Ref)
    requires LastWith(refs, c.digest) == Some(c)
    ensures LastWith(before + refs, c.digest) == Some(c)
  {
    var all, n := before + refs, |refs| - 1;
    assert all[|all| - 1] == refs[n] && all[..|all| - 1] == before + refs[..n];
    if refs[n].digest != c.digest {
      LastAfter(before, refs[..n], c);
    }
  }

  /** The records of a repaired repository are again all there, and give the same artifacts. */
  lemma RecordsAgain(k: Disk, name: string, file: Option<Repo>)
    requires Sound(k, name, file)
    ensures var records, again := Records(k, file.value).value, Records(k, Repaired(k, name, file).value);
      && again.Some? && again.value.Keys == records.Keys
      && AllArtifactsOk(k, again.value) && RebuiltArtifacts(k, again.value) == RebuiltArtifacts(k, records)
  {
    hide ArtifactOk, AddRecords, AllArtifacts, ImageOk, Closed, TagsOk, Tags, Union, Fits, RebuiltArtifacts, AllArtifactsOk;
    var s := file.value;
    var images, records := AddRecords(k, AllArtifacts(s.images)).value, Records(k, s).value;
    var rebuilt := RebuiltArtifacts(k, records);
    ImagesWithin(k, s);
    RebuiltFits(k, images, records);
    UnionAgain(k, images, records);
    assert Records(k, Repaired(k, name, file).value) == Some(Union(images, rebuilt));
  }

  /** The records of the images are part of all records. */
  ghost predicate PartOf(images: map<string, Artifact>, records: map<string, Artifact>)
  {
    forall d | d in images :: d in records && RefOf(images[d]) == RefOf(records[d]) && images[d].blobs <= records[d].blobs
  }

  lemma ImagesWithin(k: Disk, s: Repo)
    requires Records(k, s).Some?
    ensures PartOf(AddRecords(k, AllArtifacts(s.images)).value, Records(k, s).value)
  {
    hide AddRecords, AllArtifacts;
  }

  lemma RebuiltFits(k: Disk, images: map<string, Artifact>, records: map<string, Artifact>)
    requires AllArtifactsOk(k, records) && PartOf(images, records)
    requires forall d | d in records :: records[d].digest == d && k.isDigest(d)
    ensures var rebuilt := RebuiltArtifacts(k, records);
      forall d | d in rebuilt :: Fits(k, images, d, rebuilt[d])
  {
    hide ArtifactOk;
  }

  lemma UnionAgain(k: Disk, images: map<string, Artifact>, records: map<string, Artifact>)
    requires AllArtifactsOk(k, records) && PartOf(images, records)
    ensures var again := Union(images, RebuiltArtifacts(k, records));
      && again.Keys == records.Keys && AllArtifactsOk(k, again)
      && RebuiltArtifacts(k, again) == RebuiltArtifacts(k, records)
  {
    hide ArtifactOk, CheckArtifact;
    var rebuilt := RebuiltArtifacts(k, records);
    var again := Union(images, rebuilt);
    assert again.Keys == records.Keys;
    forall d | d in again ensures ArtifactOk(k, again[d]) && CheckArtifact(k, again[d]) == CheckArtifact(k, records[d]) {
      RecordAgain(k, images, records, d);
      Checks(k, again[d]);
      Checks(k, records[d]);
    }
  }

  lemma RecordAgain(k: Disk, images: map<string, Artifact>, records: map<string, Artifact>, d: string)
    requires d in records && AllArtifactsOk(k, records)
    requires d in images ==> RefOf(images[d]) == RefOf(records[d]) && images[d].blobs <= records[d].blobs
    ensures var r := CheckArtifact(k, records[d]).value;
      CheckArtifact(k, if d in images then Joined(images[d], r) else r) == CheckArtifact(k, records[d])
  {
    hide ArtifactOk;
    var r := CheckArtifact(k, records[d]).value;
    if d in images {
      BlobsOfRecord(k, records[d]);
      SameAgain(k, records[d], Joined(images[d], r), images[d].blobs, images[d].manifests);
    } else {
      assert [] + r.blobs == r.blobs && [] + r.manifests == r.manifests;
      SameAgain(k, records[d], r, [], []);
    }
  }

  lemma BlobsOfRecord(k: Disk, a: Artifact)
    requires ArtifactOk(k, a)
    ensures BlobsOk(k, a.blobs)
  {
  }

  /** Tags gathered from the images are those of artifacts the images record. */
  lemma {:induction false} TagsOfRecorded(k: Disk, names: seq<Naming>, t: string)
    requires (forall i | 0 <= i < |names| :: NamingOk(k, names[i])) && t in TagsOf(names)
    ensures t != "" && k.validTag(t) && k.isDigest(TagsOf(names)[t]) && Naming(t, TagsOf(names)[t]) in names
  {
    var n := |names| - 1;
    assert NamingOk(k, names[n]);
    if names[n].tag != t || t == "" {
      TagsOfRecorded(k, names[..n], t);
    } else {
      assert names[n] == Naming(t, names[n].digest);
    }
  }

  lemma {:induction false} Recorded(k: Disk, list: seq<Artifact>, a: Artifact)
    requires AddRecords(k, list).Some? && a in list
    ensures a.digest in AddRecords(k, list).value
  {
    var n := |list| - 1;
    if list[n] != a {
      assert a in list[..n];
      Recorded(k, list[..n], a);
    }
  }

  lemma TagsAgain(k: Disk, name: string, file: Option<Repo>)
    requires Sound(k, name, file)
    ensures TagsOk(k, Repaired(k, name, file).value, Records(k, file.value).value.Keys)
  {
    var s := file.value;
    if s.index.None? {
      hide ArtifactOk, ImageOk, Closed;
      var list := AllArtifacts(s.images);
      forall t | t in Tags(s) ensures TagOk(k, t, Tags(s)[t], Records(k, s).value.Keys) {
        TagsOfRecorded(k, ArtifactNames(list), t);
        var i :| 0 <= i < |list| && ArtifactNames(list)[i] == Naming(t, Tags(s)[t]);
        Recorded(k, list, list[i]);
      }
    }
  }

  /** A repair leaves nothing to repair: the repository is still sound, its content gives the same index,
      and its index is that one. */
  lemma RepairIsIdempotent(k: Disk, name: string, file: Option<Repo>)
    requires Sound(k, name, file)
    ensures var again := Repaired(k, name, file);
      && Sound(k, name, again) && Rebuilt(k, name, again) == Rebuilt(k, name, file)
      && Clean(k, name, again) && Repaired(k, name, again) == again
  {
    hide ArtifactOk, ImageOk, Closed, TagsOk, Records, AllArtifactsOk, RebuiltArtifacts;
    RecordsAgain(k, name, file);
    TagsAgain(k, name, file);
  }

  /** What a repository recorded, in its images or its index. */
  ghost predicate RecordedIn(s: Repo, a: Artifact)
  {
    a in AllArtifacts(s.images) ||
    (s.index.Some? && s.index.value.artifacts.Some? && exists d :: d in s.index.value.artifacts.value && s.index.value.artifacts.value[d] == a)
  }

  ghost predicate DigestRecorded(s: Repo, d: string) { exists a :: RecordedIn(s, a) && a.digest == d }

  ghost predicate BlobRecorded(s: Repo, d: string, b: Blob) { exists a :: RecordedIn(s, a) && a.digest == d && b in a.blobs }

  ghost predicate ChildRecorded(s: Repo, d: string, c: Ref) { exists a :: RecordedIn(s, a) && a.digest == d && c in a.manifests }

  /** A record gathered for a digest holds nothing that was not recorded for it. */
  ghost predicate Genuine(s: Repo, d: string, a: Artifact)
  {
    && DigestRecorded(s, d)
    && (forall b | b in a.blobs :: BlobRecorded(s, d, b))
    && (forall c | c in a.manifests :: ChildRecorded(s, d, c))
  }

  lemma ItselfGenuine(s: Repo, a: Artifact)
    requires RecordedIn(s, a)
    ensures Genuine(s, a.digest, a)
  {
    hide RecordedIn;
  }

  lemma JoinedGenuine(s: Repo, d: string, a: Artifact, b: Artifact)
    requires Genuine(s, d, a) && Genuine(s, d, b)
    ensures Genuine(s, d, Joined(a, b))
  {
    hide DigestRecorded, BlobRecorded, ChildRecorded;
  }

  lemma {:induction false} GatheredGenuine(k: Disk, s: Repo, list: seq<Artifact>, d: string)
    requires AddRecords(k, list).Some? && d in AddRecords(k, list).value
    requires forall i | 0 <= i < |list| :: RecordedIn(s, list[i])
    ensures Genuine(s, d, AddRecords(k, list).value[d])
  {
    hide RecordedIn, Genuine;
    var n := |list| - 1;
    var before := AddRecords(k, list[..n]).value;
    ItselfGenuine(s, list[n]);
    if d in before {
      GatheredGenuine(k, s, list[..n], d);
      if list[n].digest == d {
        JoinedGenuine(s, d, before[d], list[n]);
      }
    }
  }

  lemma RecordsGenuine(k: Disk, s: Repo, d: string)
    requires Records(k, s).Some? && d in Records(k, s).value
    ensures Genuine(s, d, Records(k, s).value[d])
  {
    hide Genuine, AddRecords;
    var images := AddRecords(k, AllArtifacts(s.images)).value;
    if d in images {
      GatheredGenuine(k, s, AllArtifacts(s.images), d);
    }
    if s.index.Some? && d in s.index.value.artifacts.value {
      var a := s.index.value.artifacts.value[d];
      assert Fits(k, images, d, a);
      ItselfGenuine(s, a);
      if d in images {
        JoinedGenuine(s, d, images[d], a);
      }
    }
  }

  lemma {:induction false} LastIn(refs: seq<Ref>, c: Ref)
    requires LastWith(refs, c.digest) == Some(c)
    ensures c in refs
  {
    if refs[|refs| - 1].digest != c.digest {
      LastIn(refs[..|refs| - 1], c);
    }
  }

  /** What content gives for a record is part of the record. */
  lemma DescribedWithin(k: Disk, a: Artifact)
    requires ArtifactOk(k, a)
    ensures var r := CheckArtifact(k, a).value;
      && (forall b | b in r.blobs :: b in a.blobs && BlobOk(k, b)) && forall c | c in r.manifests :: c in a.manifests
  {
    var m := ReadManifest(k, RefOf(a)).value;
    var r := CheckArtifact(k, a).value;
    forall b | b in r.blobs ensures b in a.blobs && BlobOk(k, b) {
      var i :| 0 <= i < |a.blobs| && a.blobs[i].digest == b.digest;
      assert BlobOk(k, a.blobs[i]);
    }
    forall c | c in r.manifests ensures c in a.manifests {
      assert ChildOk(k, c, a.manifests);
      LastIn(a.manifests, c);
    }
  }

  /** An artifact of a rebuilt index was recorded, with its blobs and its children; its blobs verify and
      its children are there. */
  ghost predicate Within(k: Disk, s: Repo, artifacts: map<string, Artifact>, d: string)
    requires d in artifacts
  {
    && DigestRecorded(s, d)
    && (forall b | b in artifacts[d].blobs :: BlobRecorded(s, d, b) && BlobOk(k, b))
    && (forall c | c in artifacts[d].manifests :: ChildRecorded(s, d, c) && c.digest in artifacts && RefOf(artifacts[c.digest]) == c)
  }

  /** A repair never widens a repository. */
  lemma RepairNeverWidens(k: Disk, name: string, file: Option<Repo>)
    requires Sound(k, name, file)
    ensures var artifacts := Rebuilt(k, name, file).artifacts.value;
      forall d | d in artifacts :: Within(k, file.value, artifacts, d)
    ensures var rebuilt := Rebuilt(k, name, file);
      forall t | t in rebuilt.tags.value :: rebuilt.tags.value[t] in rebuilt.artifacts.value
  {
    var s, artifacts := file.value, Rebuilt(k, name, file).artifacts.value;
    var records := Records(k, s).value;
    forall d | d in artifacts ensures Within(k, s, artifacts, d) {
      hide ArtifactOk, ImageOk, TagsOk, Records, DigestRecorded, BlobRecorded, ChildRecorded, BlobOk, CheckArtifact;
      RecordsGenuine(k, s, d);
      DescribedWithin(k, records[d]);
      ChildrenThere(k, records, d);
    }
    TagsThere(k, name, file);
  }

  lemma ChildrenThere(k: Disk, records: map<string, Artifact>, d: string)
    requires AllArtifactsOk(k, records) && Closed(RebuiltArtifacts(k, records)) && d in records
    requires forall d | d in records :: records[d].digest == d
    ensures var artifacts := RebuiltArtifacts(k, records);
      forall c | c in artifacts[d].manifests :: c.digest in artifacts && RefOf(artifacts[c.digest]) == c
  {
    hide ArtifactOk;
  }

  lemma TagsThere(k: Disk, name: string, file: Option<Repo>)
    requires Sound(k, name, file)
    ensures forall t | t in Tags(file.value) :: Tags(file.value)[t] in Records(k, file.value).value
  {
    hide ArtifactOk, ImageOk, Closed, AllArtifactsOk;
    TagsAgain(k, name, file);
    forall t | t in Tags(file.value) ensures Tags(file.value)[t] in Records(k, file.value).value {
      assert TagOk(k, t, Tags(file.value)[t], Records(k, file.value).value.Keys);
    }
  }

  // ---- the checker ----

  /** What the files of a root become when every repository is sound and repair is asked for. */
  function AllRepaired(k: Disk, files: map<string, Option<Repo>>): map<string, Option<Repo>>
    requires AllSound(k, files)
  {
    map n | n in files :: Repaired(k, n, files[n])
  }

  predicate AllSound(k: Disk, files: map<string, Option<Repo>>) { forall n | n in files :: Sound(k, n, files[n]) }

  /** A repository with nothing to report. */
  predicate Clean(k: Disk, name: string, file: Option<Repo>)
  {
    Sound(k, name, file) && Verdict(file.value.index, Rebuilt(k, name, file)) == []
  }

  predicate AllClean(k: Disk, files: map<string, Option<Repo>>) { forall n | n in files :: Clean(k, n, files[n]) }

  /** A repair of what is clean writes nothing new. */
  lemma CleanStays(k: Disk, name: string, file: Option<Repo>)
    requires Clean(k, name, file)
    ensures Repaired(k, name, file) == file
  {
    hide ArtifactOk, ImageOk, Closed, TagsOk, Records, AllArtifactsOk, Rebuilt;
  }

  /** After a repair a root is clean, and another repair changes nothing. */
  lemma RunsAreIdempotent(k: Disk, files: map<string, Option<Repo>>)
    requires AllSound(k, files)
    ensures AllClean(k, AllRepaired(k, files)) && AllSound(k, AllRepaired(k, files))
    ensures AllRepaired(k, AllRepaired(k, files)) == AllRepaired(k, files)
  {
    hide Clean, Sound, Repaired;
    forall n | n in files ensures var again := Repaired(k, n, files[n]);
      Sound(k, n, again) && Clean(k, n, again) && Repaired(k, n, again) == again
    {
      RepairIsIdempotent(k, n, files[n]);
    }
  }

  /** The records of the images with those of the index outside `rest`. */
  ghost predicate Adding(k: Disk, images: map<string, Artifact>, indexed: map<string, Artifact>, rest: set<string>, now: map<string, Artifact>)
  {
    && (forall d :: d in now <==> d in images || (d in indexed && d !in rest))
    && (forall d | d in now && d in rest :: d in images && now[d] == images[d])
    && (forall d | d in now && d !in rest :: (d in images || d in indexed) && now[d] == UnionAt(images, indexed, d))
    && (forall d | d in indexed && d !in rest :: Fits(k, images, d, indexed[d]))
  }

  lemma AddingNothing(k: Disk, images: map<string, Artifact>, indexed: map<string, Artifact>)
    ensures Adding(k, images, indexed, indexed.Keys, images)
  {
  }

  lemma AddingMore(k: Disk, images: map<string, Artifact>, indexed: map<string, Artifact>, rest: set<string>, now: map<string, Artifact>, d: string)
    requires Adding(k, images, indexed, rest, now) && d in rest && rest <= indexed.Keys
    ensures Fits(k, images, d, indexed[d]) ==>
      indexed[d].digest == d && AddRecord(k, now, indexed[d]) == Some(now[d := UnionAt(images, indexed, d)])
    ensures Fits(k, images, d, indexed[d]) ==>
      Adding(k, images, indexed, rest - {d}, now[d := UnionAt(images, indexed, d)])
    ensures indexed[d].digest == d && !Fits(k, images, d, indexed[d]) ==> AddRecord(k, now, indexed[d]).None?
  {
    AddFits(k, images, indexed, now, d);
    hide Fits, AddRecord;
  }

  lemma AddFits(k: Disk, images: map<string, Artifact>, indexed: map<string, Artifact>, now: map<string, Artifact>, d: string)
    requires d in indexed && (d in now <==> d in images) && (d in now ==> now[d] == images[d])
    ensures Fits(k, images, d, indexed[d]) ==>
      indexed[d].digest == d && AddRecord(k, now, indexed[d]) == Some(now[d := UnionAt(images, indexed, d)])
    ensures indexed[d].digest == d && !Fits(k, images, d, indexed[d]) ==> AddRecord(k, now, indexed[d]).None?
  {
  }

  lemma AddingAll(k: Disk, images: map<string, Artifact>, indexed: map<string, Artifact>, now: map<string, Artifact>)
    requires Adding(k, images, indexed, {}, now)
    ensures now == Union(images, indexed) && forall d | d in indexed :: Fits(k, images, d, indexed[d])
  {
    hide UnionAt, Fits;
  }

  /** The artifacts rebuilt of the records outside `rest`, if all of those check. */
  ghost predicate Rebuilding(k: Disk, records: map<string, Artifact>, rest: set<string>, artifacts: map<string, Artifact>, ok: bool)
  {
    && (ok <==> forall d | d in records && d !in rest :: ArtifactOk(k, records[d]))
    && (forall d :: d in artifacts <==> d in records && d !in rest && ArtifactOk(k, records[d]))
    && forall d | d in artifacts :: d in records && CheckArtifact(k, records[d]) == Some(artifacts[d])
  }

  /** The entries of the records that check. */
  function Checked(k: Disk, records: map<string, Artifact>): map<string, Artifact>
  {
    map d | d in records && ArtifactOk(k, records[d]) :: CheckArtifact(k, records[d]).value
  }

  lemma RebuildingNothing(k: Disk, records: map<string, Artifact>)
    ensures Rebuilding(k, records, records.Keys, map[], true)
  {
  }

  lemma RebuildingMore(k: Disk, records: map<string, Artifact>, rest: set<string>, artifacts: map<string, Artifact>, ok: bool, d: string)
    requires Rebuilding(k, records, rest, artifacts, ok) && d in rest && rest <= records.Keys
    ensures var r := CheckArtifact(k, records[d]);
      Rebuilding(k, records, rest - {d}, if r.Some? then artifacts[d := r.value] else artifacts, ok && r.Some?)
  {
    Checks(k, records[d]);
    hide ArtifactOk, CheckArtifact;
  }

  lemma Checks(k: Disk, a: Artifact)
    ensures CheckArtifact(k, a).Some? <==> ArtifactOk(k, a)
  {
  }

  lemma RebuildingAll(k: Disk, records: map<string, Artifact>, artifacts: map<string, Artifact>, ok: bool)
    requires Rebuilding(k, records, {}, artifacts, ok)
    ensures ok == AllArtifactsOk(k, records) && (ok ==> artifacts == RebuiltArtifacts(k, records))
    ensures artifacts == Checked(k, records)
  {
    hide ArtifactOk;
  }

  lemma NoNames(k: Disk)
    ensures Agree(k, []) && TagsOf([]) == map[]
  {
  }

  /** The names so far and what is noted of them. */
  lemma {:induction false} TagsNote(k: Disk, names: seq<Naming>)
    requires Agree(k, names)
    ensures forall j | 0 <= j < |names| && names[j].tag != "" ::
      names[j].tag in TagsOf(names) && TagsOf(names)[names[j].tag] == names[j].digest
    ensures forall t | t in TagsOf(names) :: Naming(t, TagsOf(names)[t]) in names
  {
    if names != [] {
      var n := |names| - 1;
      assert names == names[..n] + [names[n]];
      TagsNote(k, names[..n]);
      forall t | t in TagsOf(names) ensures Naming(t, TagsOf(names)[t]) in names {
        TagsOfRecorded(k, names, t);
      }
      forall j | 0 <= j < |names| && names[j].tag != ""
        ensures names[j].tag in TagsOf(names) && TagsOf(names)[names[j].tag] == names[j].digest
      {
        assert j < n ==> names[..n][j] == names[j];
      }
    }
  }

  lemma AgreeNext(k: Disk, names: seq<Naming>, n: Naming)
    requires Agree(k, names)
    ensures var tags := TagsOf(names);
      && (Agree(k, names + [n]) <==> NamingOk(k, n) && (n.tag != "" && n.tag in tags ==> tags[n.tag] == n.digest))
      && TagsOf(names + [n]) == if n.tag == "" then tags else tags[n.tag := n.digest]
  {
    hide NamingOk;
    var more, tags := names + [n], TagsOf(names);
    assert more[|names|] == n && more[..|more| - 1] == names;
    TagsNote(k, names);
    if n.tag != "" && n.tag in tags {
      var j :| 0 <= j < |names| && names[j] == Naming(n.tag, tags[n.tag]);
      assert more[j] == names[j];
    }
  }

  lemma AgreeBefore(k: Disk, names: seq<Naming>, i: nat)
    requires i <= |names| && !Agree(k, names[..i])
    ensures !Agree(k, names)
  {
    hide NamingOk;
  }

  class Checker {
    const disk: Disk
    var verified: map<string, Option<int>>
    var files: map<string, Option<Repo>>

    constructor (disk: Disk, files: map<string, Option<Repo>>)
      ensures this.disk == disk && this.files == files && Cached()
    {
      this.disk, this.files, verified := disk, files, map[];
    }

    /** What was verified once still holds: content does not change under its name. */
    ghost predicate Cached()
      reads this`verified
    {
      forall d | d in verified :: verified[d] == disk.blob(d)
    }

    method CheckBlob(b: Blob) returns (ok: bool)
      requires Cached()
      modifies this`verified
      ensures Cached() && ok == BlobOk(disk, b)
    {
      if !disk.isDigest(b.digest) || b.size < 0 {
        return false;
      }
      if b.digest !in verified {
        verified := verified[b.digest := disk.blob(b.digest)];
      }
      ok := verified[b.digest] == Some(b.size);
    }

    /** checkRecordedBlobs: all of them, whatever fails. */
    method CheckBlobs(blobs: seq<Blob>) returns (ok: bool)
      requires Cached()
      modifies this`verified
      ensures Cached() && ok == BlobsOk(disk, blobs)
    {
      hide BlobOk;
      ok := true;
      for i := 0 to |blobs|
        invariant Cached() && (ok <==> forall j | 0 <= j < i :: BlobOk(disk, blobs[j]))
      {
        var fine := CheckBlob(blobs[i]);
        ok := ok && fine;
      }
    }

    method ReadDocument(r: Ref) returns (m: Option<Manifest>)
      requires Cached()
      modifies this`verified
      ensures Cached() && m == ReadManifest(disk, r)
    {
      if !IsDocument(r.mediaType) || r.size <= 0 || r.size > MAX_MANIFEST {
        return None;
      }
      var there := CheckBlob(Blob(r.digest, r.size));
      if !there {
        return None;
      }
      m := disk.manifest(r.digest);
      if m.None? || m.value.schema != 2 || (m.value.mediaType != "" && m.value.mediaType != r.mediaType) {
        return None;
      }
      if m.value.subject.Some? && !(disk.isDigest(m.value.subject.value.digest) && m.value.subject.value.size >= 0) {
        return None;
      }
    }

    /** checkManifestBlobs. */
    method CheckPayload(m: Manifest, authorized: seq<Blob>) returns (ok: bool)
      requires Cached()
      modifies this`verified
      ensures Cached() && ok == PayloadOk(disk, m, authorized)
    {
      hide BlobOk, BlobsOk, Includes;
      if m.config.digest == "" {
        return false;
      }
      ok := CheckBlobs(authorized);
      ghost var before := ok;
      var payload := Payload(m);
      for i := 0 to |payload|
        invariant Cached()
        invariant ok <==> before && forall j | 0 <= j < i :: Includes(authorized, payload[j].digest) && BlobOk(disk, payload[j])
      {
        if Includes(authorized, payload[i].digest) {
          var fine := CheckBlob(payload[i]);
          ok := ok && fine;
        } else {
          ok := false;
        }
      }
    }

    /** storedContainerIndexChildren. */
    method CheckChildren(children: seq<Ref>, authorized: seq<Ref>) returns (ok: bool)
      ensures ok == ChildrenOk(disk, children, authorized)
    {
      var byDigest: map<string, Ref> := map[];
      for i := 0 to |authorized|
        invariant forall d :: (if d in byDigest then Some(byDigest[d]) else None) == LastWith(authorized[..i], d)
      {
        byDigest := byDigest[authorized[i].digest := authorized[i]];
        assert authorized[..i + 1][..i] == authorized[..i];
      }
      assert authorized[..|authorized|] == authorized;
      for i := 0 to |children|
        invariant forall j | 0 <= j < i :: ChildOk(disk, children[j], authorized)
      {
        var c := children[i];
        assert (if c.digest in byDigest then Some(byDigest[c.digest]) else None) == LastWith(authorized, c.digest);
        if c.digest !in byDigest || !disk.isDigest(c.digest) || c.size <= 0 || byDigest[c.digest].size != c.size
          || byDigest[c.digest].mediaType != c.mediaType || !IsDocument(c.mediaType)
        {
          assert !ChildOk(disk, c, authorized);
          return false;
        }
        LastHas(authorized, c.digest);
      }
      ok := true;
    }

    method Examine(a: Artifact) returns (r: Option<Artifact>)
      requires Cached()
      modifies this`verified
      ensures Cached() && r == CheckArtifact(disk, a)
    {
      hide BlobsOk, ChildrenOk, PayloadOk, ReadManifest;
      var m := ReadDocument(RefOf(a));
      if m.None? {
        return None;
      }
      var ok;
      if IsIndex(a.mediaType) {
        ok := CheckBlobs(a.blobs);
        if ok {
          ok := CheckChildren(m.value.manifests, a.manifests);
        }
      } else {
        ok := CheckPayload(m.value, a.blobs);
      }
      r := if ok then Some(Described(a, m.value)) else None;
    }

    method ExamineImage(img: Image, artifacts: set<string>) returns (ok: bool)
      requires Cached()
      modifies this`verified
      ensures Cached() && ok == ImageOk(disk, img, artifacts)
    {
      hide PayloadOk, ReadManifest, Includes;
      var r := Ref(img.digest, img.mediaType, img.size);
      var m := ReadDocument(r);
      if m.None? {
        return false;
      }
      if IsIndex(img.mediaType) {
        ok := img.blobs == [] && img.digest in artifacts;
      } else {
        ok := CheckPayload(m.value, img.blobs);
        if ok {
          for i := 0 to |img.blobs|
            invariant forall j | 0 <= j < i :: Includes(Payload(m.value), img.blobs[j].digest)
          {
            if !Includes(Payload(m.value), img.blobs[i].digest) {
              assert img.blobs[i] in img.blobs;
              return false;
            }
          }
        }
      }
      if !ok || img.index.None? {
        return;
      }
      var index := ReadDocument(img.index.value);
      if index.None? || !IsIndex(img.index.value.mediaType) {
        return false;
      }
      for i := 0 to |index.value.manifests|
        invariant forall j | 0 <= j < i :: index.value.manifests[j] != r
      {
        if index.value.manifests[i] == r {
          return true;
        }
      }
      ok := false;
    }

    /** containerIntegrityArtifactRecords. */
    method Gather(s: Repo) returns (records: Option<map<string, Artifact>>)
      ensures records == Records(disk, s)
    {
      hide AddRecord;
      var list := AllArtifacts(s.images);
      var now: map<string, Artifact> := map[];
      for i := 0 to |list|
        invariant AddRecords(disk, list[..i]) == Some(now)
      {
        var more := AddRecord(disk, now, list[i]);
        assert list[..i + 1][..i] == list[..i];
        if more.None? {
          StaysNone(disk, list, i + 1);
          return None;
        }
        now := more.value;
      }
      assert list[..|list|] == list;
      if s.index.None? {
        return Some(now);
      }
      if s.index.value.version != INDEX_VERSION || s.index.value.artifacts.None? || s.index.value.tags.None? {
        return None;
      }
      records := AddIndexed(now, s.index.value.artifacts.value);
    }

    method AddIndexed(images: map<string, Artifact>, indexed: map<string, Artifact>) returns (records: Option<map<string, Artifact>>)
      requires forall d | d in images :: images[d].digest == d
      ensures records ==
        if forall d | d in indexed :: Fits(disk, images, d, indexed[d]) then Some(Union(images, indexed)) else None
    {
      hide AddRecord, Fits, Union, Adding;
      var now, rest := images, indexed.Keys;
      AddingNothing(disk, images, indexed);
      while rest != {}
        invariant rest <= indexed.Keys && Adding(disk, images, indexed, rest, now)
        decreases |rest|
      {
        var d :| d in rest;
        AddingMore(disk, images, indexed, rest, now, d);
        if d != indexed[d].digest {
          return None;
        }
        var more := AddRecord(disk, now, indexed[d]);
        if more.None? {
          return None;
        }
        now, rest := more.value, rest - {d};
      }
      AddingAll(disk, images, indexed, now);
      records := Some(now);
    }

    /** containerIntegritySetTag, over a list. */
    method SetTags(names: seq<Naming>) returns (ok: bool, tags: map<string, string>)
      ensures ok == Agree(disk, names)
      ensures ok ==> tags == TagsOf(names)
    {
      hide Agree, TagsOf, NamingOk;
      tags := map[];
      NoNames(disk);
      for i := 0 to |names|
        invariant Agree(disk, names[..i]) && tags == TagsOf(names[..i])
      {
        var n := names[i];
        assert names[..i + 1] == names[..i] + [n];
        AgreeNext(disk, names[..i], n);
        if !NamingOk(disk, n) || (n.tag != "" && n.tag in tags && tags[n.tag] != n.digest) {
          AgreeBefore(disk, names, i + 1);
          return false, tags;
        }
        if n.tag != "" {
          tags := tags[n.tag := n.digest];
        }
      }
      assert names[..|names|] == names;
      ok := true;
    }

    /** containerIntegrityTags. */
    method GatherTags(s: Repo, artifacts: set<string>) returns (tags: Option<map<string, string>>)
      requires s.index.Some? ==> s.index.value.tags.Some?
      ensures tags == if TagsOk(disk, s, artifacts) then Some(Tags(s)) else None
    {
      hide Agree, ImageNames, ArtifactNames;
      var ok, _ := SetTags(ImageNames(s.images));
      if !ok {
        return None;
      }
      if s.index.None? {
        var fine, legacy := SetTags(ArtifactNames(AllArtifacts(s.images)));
        return if fine then Some(legacy) else None;
      }
      var stored := s.index.value.tags.value;
      var rest := stored.Keys;
      while rest != {}
        invariant rest <= stored.Keys && forall t | t in stored && t !in rest :: TagOk(disk, t, stored[t], artifacts)
        decreases |rest|
      {
        var t :| t in rest;
        if !TagOk(disk, t, stored[t], artifacts) {
          return None;
        }
        rest := rest - {t};
      }
      tags := Some(stored);
    }

    /** checkRepository, and exactly when it reports what. */
    method CheckRepository(name: string, file: Option<Repo>) returns (issues: seq<Issue>, rebuilt: Option<Index>)
      requires Cached()
      modifies this`verified
      ensures Cached()
      ensures CanRepair(issues) == Sound(disk, name, file)
      ensures Clean(disk, name, file) == (issues == [])
      ensures RepositoryInvalid in issues <==> !Readable(disk, name, file)
      ensures IndexInvalid in issues <==> Readable(disk, name, file) && Records(disk, file.value).None?
      ensures Gathered(disk, name, file) ==> var s, artifacts := file.value, Checked(disk, Records(disk, file.value).value);
        && (ContentInvalid in issues <==>
              (!AllArtifactsOk(disk, Records(disk, s).value) || exists img :: img in s.images && !ImageOk(disk, img, artifacts.Keys)))
        && (GraphIncomplete in issues <==> !Closed(artifacts)) && (TagsAmbiguous in issues <==> !TagsOk(disk, s, artifacts.Keys))
        && (IndexMissing in issues <==> s.index.None?)
      ensures Sound(disk, name, file) ==> file.Some? && Repaired(disk, name, file) == Some(file.value.(index := rebuilt))
    {
      hide ArtifactOk, ImageOk, TagsOk, Records, Tags, Closed, CheckArtifact;
      if !disk.validName(name) || file.None? || file.value.name != name || file.value.images == [] {
        assert RepositoryInvalid in [RepositoryInvalid];
        return [RepositoryInvalid], None;
      }
      var s := file.value;
      var gathered := Gather(s);
      if gathered.None? {
        assert IndexInvalid in [IndexInvalid];
        return [IndexInvalid], None;
      }
      var records := gathered.value;
      var artifacts, sound := RebuildArtifacts(records);
      var imagesOk := CheckImages(s.images, artifacts.Keys);
      WithMaps(disk, s);
      var tags := GatherTags(s, artifacts.Keys);
      var index := Index(INDEX_VERSION, Some(artifacts), Some(if tags.Some? then tags.value else map[]));
      issues := IssuesOf(sound && imagesOk, Closed(artifacts), tags.Some?, s.index, index);
      rebuilt := Some(index);
      assert AllArtifactsOk(disk, records) ==> artifacts.Keys == records.Keys;
    }

    /** One index entry for each record whose content checks. */
    method RebuildArtifacts(records: map<string, Artifact>) returns (artifacts: map<string, Artifact>, ok: bool)
      requires Cached()
      modifies this`verified
      ensures Cached() && ok == AllArtifactsOk(disk, records)
      ensures ok ==> artifacts == RebuiltArtifacts(disk, records)
      ensures artifacts == Checked(disk, records)
    {
      hide ArtifactOk, CheckArtifact, Rebuilding, AllArtifactsOk;
      artifacts, ok := map[], true;
      var rest := records.Keys;
      assert Rebuilding(disk, records, rest, artifacts, ok) by { hide *; RebuildingNothing(disk, records); }
      while rest != {}
        invariant Cached() && rest <= records.Keys && Rebuilding(disk, records, rest, artifacts, ok)
        decreases |rest|
      {
        var d :| d in rest;
        var r := Examine(records[d]);
        RebuildingMore(disk, records, rest, artifacts, ok, d);
        if r.Some? {
          artifacts := artifacts[d := r.value];
        } else {
          ok := false;
        }
        rest := rest - {d};
      }
      RebuildingAll(disk, records, artifacts, ok);
    }

    method CheckImages(images: seq<Image>, artifacts: set<string>) returns (ok: bool)
      requires Cached()
      modifies this`verified
      ensures Cached() && (ok <==> forall img | img in images :: ImageOk(disk, img, artifacts))
    {
      hide ImageOk;
      ok := true;
      for i := 0 to |images|
        invariant Cached() && (ok <==> forall j | 0 <= j < i :: ImageOk(disk, images[j], artifacts))
      {
        var fine := ExamineImage(images[i], artifacts);
        ok := ok && fine;
      }
    }

    /** checkContainerIntegrity: every repository is checked before any is written, and none is written
        unless all can be. */
    method Run(repair: bool) returns (ok: bool)
      requires Cached()
      modifies this`verified, this`files
      ensures Cached()
      ensures files == if repair && AllSound(disk, old(files)) then AllRepaired(disk, old(files)) else old(files)
      ensures ok == AllClean(disk, files)
    {
      hide Sound, Clean;
      var rest, can, clean := files.Keys, true, true;
      while rest != {}
        invariant Cached() && rest <= files.Keys && files == old(files)
        invariant can <==> forall n | n in files && n !in rest :: Sound(disk, n, files[n])
        invariant clean <==> forall n | n in files && n !in rest :: Clean(disk, n, files[n])
        decreases |rest|
      {
        var n :| n in rest;
        var issues, _ := CheckRepository(n, files[n]);
        can := can && CanRepair(issues);
        clean := clean && issues == [];
        rest := rest - {n};
      }
      if repair && can {
        Repair();
        RunsAreIdempotent(disk, old(files));
        return true;
      }
      ok := clean;
    }

    /** applyRepairs: each is checked again and written; one without issues is not. */
    method Repair()
      requires Cached() && AllSound(disk, files)
      modifies this`verified, this`files
      ensures Cached() && files == AllRepaired(disk, old(files))
    {
      hide Sound, Repaired, Clean;
      ghost var was := files;
      var rest := files.Keys;
      while rest != {}
        invariant Cached() && rest <= was.Keys && files.Keys == was.Keys
        invariant forall n | n in was :: files[n] == if n in rest then was[n] else Repaired(disk, n, was[n])
        decreases |rest|
      {
        var n :| n in rest;
        var issues, rebuilt := CheckRepository(n, files[n]);
        if issues == [] {
          CleanStays(disk, n, files[n]);
        } else {
          files := files[n := Some(files[n].value.(index := rebuilt))];
        }
        rest := rest - {n};
      }
    }
  }

  lemma {:induction false} LastHas(refs: seq<Ref>, digest: string)
    ensures LastWith(refs, digest).Some? ==> LastWith(refs, digest).value.digest == digest
  {
    if refs != [] {
      LastHas(refs[..|refs| - 1], digest);
    }
  }

  lemma {:induction false} StaysNone(k: Disk, list: seq<Artifact>, n: nat)
    requires n <= |list| && AddRecords(k, list[..n]).None?
    ensures AddRecords(k, list).None?
    decreases |list|
  {
    if n < |list| {
      assert list[..|list| - 1][..n] == list[..n];
      StaysNone(k, list[..|list| - 1], n);
    } else {
      assert list[..n] == list;
    }
  }

  lemma WithMaps(k: Disk, s: Repo)
    requires Records(k, s).Some?
    ensures s.index.Some? ==> s.index.value.tags.Some?
  {
  }
}
