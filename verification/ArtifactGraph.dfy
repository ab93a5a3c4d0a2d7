/** The artifacts attached to a container image: collecting a manifest with everything it requires,
    all of it or nothing. */
module ArtifactGraph {
  import opened Bytes

  const MAX_DEPTH := 16
  const MAX_ARTIFACTS := 64
  const MAX_FETCHES := 256 // 64 * 4

  /** A child entry of an index. */
  datatype Descriptor = Descriptor(digest: string, mediaType: string, size: int)

  datatype BlobRef = BlobRef(digest: string, size: int)

  datatype Manifest = Manifest(
    subject: Option<string>, config: Option<BlobRef>, layers: seq<BlobRef>, manifests: seq<Descriptor>)

  datatype Artifact = Artifact(
    subject: string, tag: string, digest: string, mediaType: string, size: nat,
    blobs: seq<BlobRef>, manifests: seq<Descriptor>)

  datatype ManifestFile = ManifestFile(path: string, size: int, prior: bool)

  datatype Failure = Cancelled | Cycle | Limit | Fetch | Mismatch | Invalid | Storage

  datatype Outcome<T> = Ok(value: T) | Err(failure: Failure)

  /** SHA-256, JSON parsing, the digest and media type tests, the staging paths and the cosign tags of a
      subject, as parameters. */
  datatype Formats = Formats(
    hash: Data -> string, parse: Data -> Option<Manifest>, isDigest: string -> bool,
    isManifestType: string -> bool, isIndexType: string -> bool, path: string -> string, tags: string -> seq<string>)

  /** resolvedImage: the image, the index it was found in, if any, and the attestations that index lists. */
  datatype Image = Image(digest: string, index: string, manifest: Data, mediaType: string, attestations: seq<Descriptor>)

  /** A manifest that was asked for and checked. */
  datatype Fetched = Found(body: Data, mediaType: string, digest: string) | Missing | Failed

  datatype Answer = Served(body: Data, mediaType: string) | NotFound | Broken

  datatype BlobAnswer = Downloaded | Forwarded | DryRun | Unavailable | Corrupt

  /** Everything the collection depends on outside itself. Answers may differ with the number of manifest
      requests made so far; the media type of an answer is the resolved one. */
  datatype World = World(
    live: (string, nat) -> bool, manifest: (string, nat) -> Answer,
    blob: (string, nat) -> BlobAnswer, store: (string, nat) -> bool, referrers: string -> seq<Descriptor>)

  predicate DocumentType(f: Formats, mediaType: string) { f.isManifestType(mediaType) || f.isIndexType(mediaType) }

  /** containerManifestIdentity: the digest of the bytes is checked against a digest asked for. */
  function FetchedAs(f: Formats, reference: string, a: Answer): Fetched
  {
    match a
    case NotFound => Missing
    case Broken => Failed
    case Served(body, mediaType) =>
      if (f.isDigest(reference) && f.hash(body) != reference) || !DocumentType(f, mediaType) then Failed
      else Found(body, mediaType, f.hash(body))
  }

  /** The collect is never cancelled. */
  ghost predicate Undisturbed(w: World) { forall d, n :: w.live(d, n) }

  // ---- what one manifest's record is ----

  /** The config, if there is one, and the layers. */
  function Contents(m: Manifest): seq<BlobRef>
  {
    (if m.config.Some? then [m.config.value] else []) + m.layers
  }

  predicate ChildOk(f: Formats, c: Descriptor)
  {
    f.isDigest(c.digest) && c.size > 0 && (f.isManifestType(c.mediaType) || f.isIndexType(c.mediaType))
  }

  /** A subject, where there is one, is a digest and the one asked about. */
  predicate SubjectOk(f: Formats, subject: string, m: Manifest, required: bool)
  {
    if m.subject.None? then !required
    else f.isDigest(m.subject.value) && (subject == "" || m.subject.value == subject)
  }

  predicate BlobOk(f: Formats, b: BlobRef) { f.isDigest(b.digest) && b.size >= 0 }

  ghost predicate ContentOk(f: Formats, m: Manifest, mediaType: string)
  {
    if f.isIndexType(mediaType) then forall c | c in m.manifests :: ChildOk(f, c)
    else forall b | b in Contents(m) :: BlobOk(f, b)
  }

  /** What makes a manifest acceptable. */
  ghost predicate Acceptable(f: Formats, subject: string, body: Data, mediaType: string, required: bool)
  {
    && DocumentType(f, mediaType) && f.parse(body).Some?
    && var m := f.parse(body).value;
      && SubjectOk(f, subject, m, required) && ContentOk(f, m, mediaType)
  }

  /** The record of an accepted manifest. */
  function RecordOf(f: Formats, subject: string, tag: string, body: Data, mediaType: string, digest: string, m: Manifest): Artifact
  {
    var about := if m.subject.Some? && subject == "" then m.subject.value else subject;
    if f.isIndexType(mediaType) then Artifact(about, tag, digest, mediaType, |body|, [], m.manifests)
    else Artifact(about, tag, digest, mediaType, |body|, Contents(m), [])
  }

  /** When a manifest is accepted: its type is one of a manifest or an index and it parses; it names a valid
      subject, the one asked about if there is one, or none where none is required; the children of an
      index, or else the config, if there is one, and the layers, are well-formed. */
  lemma AcceptableMeans(f: Formats, subject: string, body: Data, mediaType: string, required: bool)
    ensures Acceptable(f, subject, body, mediaType, required) <==>
      && (f.isManifestType(mediaType) || f.isIndexType(mediaType)) && f.parse(body).Some?
      && var m := f.parse(body).value;
        && (m.subject.None? ==> !required)
        && (m.subject.Some? ==> f.isDigest(m.subject.value) && (subject == "" || subject == m.subject.value))
        && (f.isIndexType(mediaType) ==> forall i | 0 <= i < |m.manifests| ::
              && f.isDigest(m.manifests[i].digest) && 1 <= m.manifests[i].size
              && (f.isManifestType(m.manifests[i].mediaType) || f.isIndexType(m.manifests[i].mediaType)))
        && (!f.isIndexType(mediaType) ==>
              && (m.config.Some? ==> f.isDigest(m.config.value.digest) && 0 <= m.config.value.size)
              && forall i | 0 <= i < |m.layers| :: f.isDigest(m.layers[i].digest) && 0 <= m.layers[i].size)
  {
    if f.parse(body).Some? {
      var m := f.parse(body).value;
      ContentsAre(m);
      assert forall i | 0 <= i < |m.layers| :: m.layers[i] in m.layers;
      assert forall i | 0 <= i < |m.manifests| :: m.manifests[i] in m.manifests;
    }
  }

  lemma ContentsAre(m: Manifest)
    ensures forall b :: b in Contents(m) <==> m.config == Some(b) || b in m.layers
  {
  }

  /** What the record of a manifest says: of an index its children and no blobs, else its config and layers
      and no children; the subject it declares or else was asked about; its size, type and tag. */
  ghost predicate Describes(f: Formats, a: Artifact, subject: string, tag: string, body: Data, mediaType: string, digest: string)
  {
    && a.digest == digest && a.mediaType == mediaType && a.size == |body| && a.tag == tag && f.parse(body).Some?
    && var m := f.parse(body).value;
      && a.subject == (if subject != "" then subject else if m.subject.Some? then m.subject.value else "")
      && (f.isIndexType(mediaType) ==> a.blobs == [] && a.manifests == m.manifests)
      && (!f.isIndexType(mediaType) ==> a.manifests == [] && forall b :: b in a.blobs <==> m.config == Some(b) || b in m.layers)
  }

  lemma RecordDescribes(f: Formats, subject: string, tag: string, body: Data, mediaType: string, digest: string)
    requires f.parse(body).Some?
    ensures Describes(f, RecordOf(f, subject, tag, body, mediaType, digest, f.parse(body).value), subject, tag, body, mediaType, digest)
  {
    ContentsAre(f.parse(body).value);
  }

  // ---- what a consistent collection is ----

  predicate Distinct(s: seq<string>)
  {
    forall i, j | 0 <= i < j < |s| :: s[i] != s[j]
  }

  predicate Matches(a: Artifact, c: Descriptor) { a.size == c.size && a.mediaType == c.mediaType }

  /** The paths of an artifact's manifest and blobs are among the files. */
  ghost predicate Covered(f: Formats, a: Artifact, files: seq<ManifestFile>)
  {
    && HasFile(files, f.path(a.digest))
    && forall b | b in a.blobs :: HasFile(files, f.path(b.digest))
  }

  ghost predicate HasFile(files: seq<ManifestFile>, path: string)
  {
    exists i :: 0 <= i < |files| && files[i].path == path
  }

  /** Every child is recorded with the size and media type its descriptor names: either before, or
      among the digests given. */
  ghost predicate Complete(found: map<string, Artifact>, pending: map<string, Artifact>, before: seq<string>, a: Artifact)
  {
    forall c | c in a.manifests ::
      || (c.digest in found && Matches(found[c.digest], c))
      || (c.digest in before && c.digest in pending && Matches(pending[c.digest], c))
  }

  /** Each digest is listed once, after everything it requires, and its files are there. */
  ghost predicate Collected(f: Formats, found: map<string, Artifact>, order: seq<string>, files: seq<ManifestFile>)
  {
    && Distinct(order) && (forall d :: d in order <==> d in found) && |found| == |order| <= MAX_ARTIFACTS
    && (forall i | 0 <= i < |order| :: Complete(map[], found, order[..i], found[order[i]]))
    && (forall d | d in found :: found[d].digest == d && Covered(f, found[d], files))
  }

  ghost predicate IsChild(a: Artifact, d: string) { exists c :: c in a.manifests && c.digest == d }

  /** A path of child entries through the records. */
  ghost predicate IsPath(found: map<string, Artifact>, path: seq<string>)
  {
    && path != []
    && (forall i | 0 <= i < |path| :: path[i] in found)
    && (forall i | 0 <= i < |path| - 1 :: IsChild(found[path[i]], path[i + 1]))
  }

  ghost predicate Reaches(found: map<string, Artifact>, root: string, d: string)
  {
    exists path :: IsPath(found, path) && path[0] == root && path[|path| - 1] == d
  }

  ghost predicate HasCycle(found: map<string, Artifact>)
  {
    exists path :: IsPath(found, path) && |path| > 1 && path[0] == path[|path| - 1]
  }

  /** The manifests being visited form a path from the root. */
  ghost predicate Trail(pending: map<string, Artifact>, visiting: set<string>, trail: seq<string>, root: string)
  {
    && (forall d :: d in visiting <==> d in trail) && Distinct(trail)
    && (trail != [] ==> trail[0] == root && IsPath(pending, trail))
  }

  /** ... down to the next one. */
  ghost predicate Leads(pending: map<string, Artifact>, visiting: set<string>, trail: seq<string>, root: string, next: string)
  {
    && Trail(pending, visiting, trail, root)
    && if trail == [] then next == root else IsChild(pending[trail[|trail| - 1]], next)
  }

  /** Everything is reached from the root. */
  ghost predicate Rooted(pending: map<string, Artifact>, root: string)
  {
    forall d | d in pending :: Reaches(pending, root, d)
  }

  ghost predicate HasParent(pending: map<string, Artifact>, d: string)
  {
    exists p :: p in pending && IsChild(pending[p], d)
  }

  /** A manifest graph being staged on top of what was found before. */
  ghost predicate Staged(f: Formats, found: map<string, Artifact>, pending: map<string, Artifact>, visiting: set<string>,
                         order: seq<string>, files: seq<ManifestFile>)
  {
    && pending.Keys !! found.Keys && visiting <= pending.Keys && |pending| + |found| <= MAX_ARTIFACTS
    && Distinct(order) && (forall d :: d in order <==> d in pending && d !in visiting)
    && (forall i | 0 <= i < |order| :: Complete(found, pending, order[..i], pending[order[i]]))
    && (forall d | d in pending :: pending[d].digest == d && Covered(f, pending[d], files))
  }

  lemma CoveredBefore(f: Formats, a: Artifact, files: seq<ManifestFile>, more: seq<ManifestFile>)
    requires Covered(f, a, files)
    ensures Covered(f, a, files + more)
  {
    FileBefore(files, more, f.path(a.digest));
    forall b | b in a.blobs ensures HasFile(files + more, f.path(b.digest)) {
      FileBefore(files, more, f.path(b.digest));
    }
  }

  lemma FileBefore(files: seq<ManifestFile>, more: seq<ManifestFile>, path: string)
    requires HasFile(files, path)
    ensures HasFile(files + more, path)
  {
    var i :| 0 <= i < |files| && files[i].path == path;
    assert (files + more)[i].path == path;
  }

  lemma CoveredAfter(f: Formats, a: Artifact, files: seq<ManifestFile>, more: seq<ManifestFile>)
    requires Covered(f, a, more)
    ensures Covered(f, a, files + more)
  {
    FileAfter(files, more, f.path(a.digest));
    forall b | b in a.blobs ensures HasFile(files + more, f.path(b.digest)) {
      FileAfter(files, more, f.path(b.digest));
    }
  }

  lemma FileAfter(files: seq<ManifestFile>, more: seq<ManifestFile>, path: string)
    requires HasFile(more, path)
    ensures HasFile(files + more, path)
  {
    var i :| 0 <= i < |more| && more[i].path == path;
    assert (files + more)[|files| + i].path == path;
  }

  /** Starting on a manifest: it is staged but not yet complete. */
  lemma EnterKeeps(f: Formats, found: map<string, Artifact>, pending: map<string, Artifact>, visiting: set<string>,
                   order: seq<string>, files: seq<ManifestFile>, d: string, a: Artifact, more: seq<ManifestFile>)
    requires Staged(f, found, pending, visiting, order, files) && d !in pending && d !in found
    requires |pending| + |found| < MAX_ARTIFACTS && a.digest == d && Covered(f, a, more)
    ensures Staged(f, found, pending[d := a], visiting + {d}, order, files + more)
  {
    hide Covered, Complete, Distinct;
    EnterSets(found, pending, visiting, order, d, a);
    EnterOrder(found, pending, order, d, a);
    EnterFiles(f, pending, files, d, a, more);
  }

  lemma EnterSets(found: map<string, Artifact>, pending: map<string, Artifact>, visiting: set<string>, order: seq<string>,
                  d: string, a: Artifact)
    requires pending.Keys !! found.Keys && visiting <= pending.Keys && d !in pending && d !in found
    requires forall x :: x in order <==> x in pending && x !in visiting
    ensures var now := pending[d := a];
      && now.Keys !! found.Keys && visiting + {d} <= now.Keys && |now| == |pending| + 1 && d !in order
      && forall x :: x in order <==> x in now && x !in visiting + {d}
  {
    var now := pending[d := a];
    assert now.Keys == pending.Keys + {d};
    assert |now.Keys| == |pending.Keys| + 1;
  }

  lemma EnterOrder(found: map<string, Artifact>, pending: map<string, Artifact>, order: seq<string>, d: string, a: Artifact)
    requires (forall x | x in order :: x in pending) && d !in order
    requires forall i | 0 <= i < |order| :: Complete(found, pending, order[..i], pending[order[i]])
    ensures var now := pending[d := a];
      forall i | 0 <= i < |order| :: order[i] in now && Complete(found, now, order[..i], now[order[i]])
  {
    hide Complete;
    var now := pending[d := a];
    forall i | 0 <= i < |order| ensures order[i] in now && Complete(found, now, order[..i], now[order[i]]) {
      assert order[i] in order && d !in order[..i];
      CompleteMore(found, pending, now, order[..i], pending[order[i]]);
    }
  }

  lemma EnterFiles(f: Formats, pending: map<string, Artifact>, files: seq<ManifestFile>, d: string, a: Artifact,
                   more: seq<ManifestFile>)
    requires (forall x | x in pending :: pending[x].digest == x && Covered(f, pending[x], files))
    requires a.digest == d && Covered(f, a, more)
    ensures var now := pending[d := a];
      forall x | x in now :: now[x].digest == x && Covered(f, now[x], files + more)
  {
    hide Covered;
    var now := pending[d := a];
    CoveredAfter(f, a, files, more);
    forall x | x in now ensures now[x].digest == x && Covered(f, now[x], files + more) {
      if x != d {
        CoveredBefore(f, pending[x], files, more);
      }
    }
  }

  lemma CompleteMore(found: map<string, Artifact>, pending: map<string, Artifact>, now: map<string, Artifact>,
                     before: seq<string>, a: Artifact)
    requires Complete(found, pending, before, a)
    requires forall d | d in before && d in pending :: d in now && now[d] == pending[d]
    ensures Complete(found, now, before, a)
  {
  }

  /** Finishing a manifest whose children are all complete: it is listed after them. */
  lemma LeaveKeeps(f: Formats, found: map<string, Artifact>, pending: map<string, Artifact>, visiting: set<string>,
                   order: seq<string>, files: seq<ManifestFile>, d: string)
    requires Staged(f, found, pending, visiting, order, files) && d in visiting
    requires Complete(found, pending, order, pending[d])
    ensures Staged(f, found, pending, visiting - {d}, order + [d], files)
  {
    hide Covered, Complete;
    var longer := order + [d];
    forall i | 0 <= i < |longer| ensures Complete(found, pending, longer[..i], pending[longer[i]]) {
      if i < |order| {
        assert longer[..i] == order[..i];
        assert Complete(found, pending, order[..i], pending[order[i]]);
      } else {
        assert longer[..i] == order;
      }
    }
  }

  /** Committing a complete graph keeps the collection consistent. */
  lemma CommitKeeps(f: Formats, found: map<string, Artifact>, pending: map<string, Artifact>, order: seq<string>,
                    listed: seq<string>, files: seq<ManifestFile>, more: seq<ManifestFile>)
    requires Collected(f, found, order, files) && Staged(f, found, pending, {}, listed, more)
    ensures Collected(f, found + pending, order + listed, files + more)
  {
    hide Covered, Complete, Distinct;
    CommitOrder(found, pending, order, listed);
    CommitComplete(found, pending, order, listed);
    CommitFiles(f, found, pending, files, more);
  }

  lemma CommitComplete(found: map<string, Artifact>, pending: map<string, Artifact>, order: seq<string>, listed: seq<string>)
    requires found.Keys !! pending.Keys
    requires (forall d :: d in order <==> d in found) && forall d :: d in listed <==> d in pending
    requires forall i | 0 <= i < |order| :: Complete(map[], found, order[..i], found[order[i]])
    requires forall i | 0 <= i < |listed| :: Complete(found, pending, listed[..i], pending[listed[i]])
    ensures var all, sum := order + listed, found + pending;
      forall i | 0 <= i < |all| :: all[i] in sum && Complete(map[], sum, all[..i], sum[all[i]])
  {
    hide Complete;
    var all, sum := order + listed, found + pending;
    forall i | 0 <= i < |all| ensures all[i] in sum && Complete(map[], sum, all[..i], sum[all[i]]) {
      if i < |order| {
        assert order[i] in order;
        CommittedFirst(found, pending, order, listed, i);
      } else {
        assert listed[i - |order|] in listed;
        CommittedThen(found, pending, order, listed, i);
      }
    }
  }

  lemma CommitFiles(f: Formats, found: map<string, Artifact>, pending: map<string, Artifact>,
                    files: seq<ManifestFile>, more: seq<ManifestFile>)
    requires found.Keys !! pending.Keys
    requires forall d | d in found :: found[d].digest == d && Covered(f, found[d], files)
    requires forall d | d in pending :: pending[d].digest == d && Covered(f, pending[d], more)
    ensures forall d | d in found + pending :: (found + pending)[d].digest == d && Covered(f, (found + pending)[d], files + more)
  {
    hide Covered;
    forall d | d in found + pending
      ensures (found + pending)[d].digest == d && Covered(f, (found + pending)[d], files + more)
    {
      if d in pending {
        CoveredAfter(f, pending[d], files, more);
      } else {
        CoveredBefore(f, found[d], files, more);
      }
    }
  }

  lemma CommittedFirst(found: map<string, Artifact>, pending: map<string, Artifact>, order: seq<string>, listed: seq<string>, i: nat)
    requires i < |order| && found.Keys !! pending.Keys && order[i] in found
    requires Complete(map[], found, order[..i], found[order[i]])
    ensures var all, sum := order + listed, found + pending;
      all[i] in sum && Complete(map[], sum, all[..i], sum[all[i]])
  {
    hide Complete;
    assert (order + listed)[..i] == order[..i];
    CompleteFirst(found, pending, order[..i], found[order[i]]);
  }

  lemma CommittedThen(found: map<string, Artifact>, pending: map<string, Artifact>, order: seq<string>, listed: seq<string>, i: nat)
    requires |order| <= i < |order| + |listed| && found.Keys !! pending.Keys && listed[i - |order|] in pending
    requires forall d | d in found :: d in order
    requires Complete(found, pending, listed[..i - |order|], pending[listed[i - |order|]])
    ensures var all, sum := order + listed, found + pending;
      all[i] in sum && Complete(map[], sum, all[..i], sum[all[i]])
  {
    hide Complete;
    var k := i - |order|;
    assert (order + listed)[..i] == order + listed[..k];
    CompleteThen(found, pending, order, listed[..k], pending[listed[k]]);
  }

  lemma CommitOrder(found: map<string, Artifact>, pending: map<string, Artifact>, order: seq<string>, listed: seq<string>)
    requires Distinct(order) && Distinct(listed) && found.Keys !! pending.Keys
    requires (forall d :: d in order <==> d in found) && forall d :: d in listed <==> d in pending
    ensures Distinct(order + listed) && forall d :: d in order + listed <==> d in found + pending
    ensures |found| == |order| ==> |found + pending| == |order + listed| == |found| + |pending|
  {
    DistinctCount(listed, pending.Keys);
    assert (found + pending).Keys == found.Keys + pending.Keys;
    assert |(found + pending).Keys| == |found.Keys| + |pending.Keys|;
    forall i, j | 0 <= i < j < |order + listed| ensures (order + listed)[i] != (order + listed)[j] {
      if i < |order| <= j {
        assert order[i] in order && listed[j - |order|] in listed;
      }
    }
  }

  lemma CompleteFirst(found: map<string, Artifact>, pending: map<string, Artifact>, before: seq<string>, a: Artifact)
    requires Complete(map[], found, before, a) && found.Keys !! pending.Keys
    ensures Complete(map[], found + pending, before, a)
  {
  }

  lemma CompleteThen(found: map<string, Artifact>, pending: map<string, Artifact>, order: seq<string>, before: seq<string>, a: Artifact)
    requires Complete(found, pending, before, a) && found.Keys !! pending.Keys && forall d | d in found :: d in order
    ensures Complete(map[], found + pending, order + before, a)
  {
  }

  lemma {:induction false} DistinctCount(s: seq<string>, elements: set<string>)
    requires Distinct(s) && forall d :: d in s <==> d in elements
    ensures |s| == |elements|
  {
    if s != [] {
      var last := s[|s| - 1];
      var init := s[..|s| - 1];
      assert s == init + [last];
      forall d ensures d in init <==> d in elements - {last} {
        if d in init {
          var i :| 0 <= i < |init| && init[i] == d;
          assert s[i] != last;
        }
      }
      DistinctCount(init, elements - {last});
    } else {
      assert elements == {};
    }
  }

  lemma PathStays(pending: map<string, Artifact>, now: map<string, Artifact>, root: string, d: string)
    requires Reaches(pending, root, d) && forall x | x in pending :: x in now && now[x] == pending[x]
    ensures Reaches(now, root, d)
  {
    hide IsChild;
    var path :| IsPath(pending, path) && path[0] == root && path[|path| - 1] == d;
    assert IsPath(now, path);
  }

  /** Everything a graph staged is reached from its root. */
  lemma EverythingReached(found: map<string, Artifact>, pending: map<string, Artifact>, root: string)
    requires pending.Keys !! found.Keys && Rooted(pending, root)
    ensures forall d | d in pending :: Reaches(found + pending, root, d)
  {
    hide Reaches;
    forall d | d in pending ensures Reaches(found + pending, root, d) {
      PathStays(pending, found + pending, root, d);
    }
  }

  lemma PathOn(all: map<string, Artifact>, root: string, p: string, d: string)
    requires Reaches(all, root, p) && p in all && d in all && IsChild(all[p], d)
    ensures Reaches(all, root, d)
  {
    hide IsChild;
    var path :| IsPath(all, path) && path[0] == root && path[|path| - 1] == p;
    var longer := path + [d];
    assert IsPath(all, longer);
    assert longer[|longer| - 1] == d && longer[0] == root;
  }

  /** Starting on a manifest that is the root or a child of something staged: everything staged, finished
      or not, is still reached from the root. */
  lemma RootedEnter(pending: map<string, Artifact>, root: string, d: string, a: Artifact)
    requires Rooted(pending, root) && d !in pending && (d == root || HasParent(pending, d))
    ensures Rooted(pending[d := a], root)
  {
    hide IsChild, Reaches;
    var now := pending[d := a];
    forall x | x in now ensures Reaches(now, root, x) {
      if x != d {
        PathStays(pending, now, root, x);
      } else if d == root {
        ReachesSelf(now, d);
      } else {
        var p :| p in pending && IsChild(pending[p], d);
        PathStays(pending, now, root, p);
        PathOn(now, root, p, d);
      }
    }
  }

  lemma ReachesSelf(all: map<string, Artifact>, d: string)
    requires d in all
    ensures Reaches(all, d, d)
  {
    assert IsPath(all, [d]);
  }

  /** One more child of a manifest is complete. */
  lemma CompleteNext(found: map<string, Artifact>, pending: map<string, Artifact>, order: seq<string>,
                     now: map<string, Artifact>, longer: seq<string>, a: Artifact, i: nat)
    requires i < |a.manifests| && order <= longer && forall d | d in pending :: d in now && now[d] == pending[d]
    requires Complete(found, pending, order, a.(manifests := a.manifests[..i]))
    requires Complete(found, now, longer, Alone(a.manifests[i]))
    ensures Complete(found, now, longer, a.(manifests := a.manifests[..i + 1]))
  {
    var before, after := a.manifests[..i], a.manifests[..i + 1];
    assert after == before + [a.manifests[i]];
    forall c | c in after
      ensures (c.digest in found && Matches(found[c.digest], c))
           || (c.digest in longer && c.digest in now && Matches(now[c.digest], c))
    {
      if c in before {
        assert c in a.(manifests := before).manifests;
        assert c.digest in order ==> c.digest in longer;
      } else {
        assert c in Alone(c).manifests;
      }
    }
  }

  /** A manifest met again while it is being visited closes a cycle. */
  lemma CycleClosed(pending: map<string, Artifact>, visiting: set<string>, trail: seq<string>, root: string, d: string)
    requires Leads(pending, visiting, trail, root, d) && d in visiting
    ensures HasCycle(pending)
  {
    hide IsChild, Distinct;
    var i :| 0 <= i < |trail| && trail[i] == d;
    var path := trail[i..] + [d];
    forall k | 0 <= k < |path| - 1 ensures path[k] in pending && IsChild(pending[path[k]], path[k + 1]) {
      assert path[k] == trail[i + k];
      if k < |path| - 2 {
        assert path[k + 1] == trail[i + k + 1];
      }
    }
    assert IsPath(pending, path);
  }

  lemma TrailGrows(pending: map<string, Artifact>, visiting: set<string>, trail: seq<string>, root: string, d: string, a: Artifact)
    requires Leads(pending, visiting, trail, root, d) && d !in pending && d !in visiting
    ensures Trail(pending[d := a], visiting + {d}, trail + [d], root)
  {
    hide IsChild;
    var now, longer := pending[d := a], trail + [d];
    forall k | 0 <= k < |longer| - 1 ensures longer[k] in now && IsChild(now[longer[k]], longer[k + 1]) {
      assert longer[k] == trail[k] && trail[k] in pending;
    }
    assert IsPath(now, longer);
    forall i, j | 0 <= i < j < |longer| ensures longer[i] != longer[j] {
      if j == |trail| {
        assert trail[i] in visiting;
      }
    }
  }

  lemma TrailStays(pending: map<string, Artifact>, visiting: set<string>, trail: seq<string>, root: string, now: map<string, Artifact>)
    requires Trail(pending, visiting, trail, root) && forall d | d in pending :: d in now && now[d] == pending[d]
    ensures Trail(now, visiting, trail, root)
  {
    hide IsChild, Distinct;
  }

  lemma TrailLeads(pending: map<string, Artifact>, visiting: set<string>, trail: seq<string>, root: string, p: string, i: nat)
    requires Trail(pending, visiting, trail, root) && trail != [] && trail[|trail| - 1] == p && p in pending
    requires i < |pending[p].manifests|
    ensures Leads(pending, visiting, trail, root, pending[p].manifests[i].digest)
  {
    assert IsChild(pending[p], pending[p].manifests[i].digest);
  }

  lemma NothingRequired(found: map<string, Artifact>, pending: map<string, Artifact>, order: seq<string>, a: Artifact)
    requires a.manifests == []
    ensures Complete(found, pending, order, a)
  {
  }

  /** A record with one child. */
  ghost function Alone(c: Descriptor): Artifact { Artifact("", "", "", "", 0, [], [c]) }

  lemma AloneComplete(found: map<string, Artifact>, pending: map<string, Artifact>, order: seq<string>, c: Descriptor)
    requires c.digest in found ==> Matches(found[c.digest], c)
    requires c.digest !in found ==> c.digest in order && c.digest in pending && Matches(pending[c.digest], c)
    ensures Complete(found, pending, order, Alone(c))
  {
  }

  // ---- what was asked for, and what it gave ----

  /** Why a reference is asked for: a cosign tag or a listed referrer of a subject, an attestation of the
      image, or a child of the document that an earlier request gave; by position. */
  datatype Reason =
    | OfTag(subject: string, i: nat)
    | OfReferrer(subject: string, i: nat)
    | OfAttestation(i: nat)
    | OfChild(of: nat, i: nat)

  datatype Request = Request(reference: string, reason: Reason)

  /** A collection up to some time: what it is about, and the requests made, in order. */
  datatype History = History(formats: Formats, world: World, image: Image, asked: seq<Request>)

  /** A later time of the same collection. */
  ghost predicate Extends(h: History, k: History)
  {
    k.formats == h.formats && k.world == h.world && k.image == h.image && h.asked <= k.asked
  }

  /** What request number n gave; number 0 stands for the image, which was there before. */
  function Obtained(h: History, n: nat): Fetched
    requires n <= |h.asked|
  {
    if n == 0 then Found(h.image.manifest, h.image.mediaType, h.image.digest)
    else FetchedAs(h.formats, h.asked[n - 1].reference, h.world.manifest(h.asked[n - 1].reference, n))
  }

  /** Request number n gave the document with this digest. */
  ghost predicate Obtains(h: History, n: nat, d: string)
  {
    n <= |h.asked| && Obtained(h, n).Found? && Obtained(h, n).digest == d
  }

  ghost predicate IsSubject(h: History, x: string, n: nat)
  {
    x == h.image.digest || (h.image.index != "" && x == h.image.index) || exists m: nat :: m < n && Obtains(h, m, x)
  }

  /** A document collected for its own sake: the request that gave it, what for, and under which tag. */
  datatype Query = Query(at: nat, subject: string, tag: string, required: bool)

  /** Nothing is asked for without need: the reason of the request is a true one. The subjects are the
      image, its index and whatever was obtained before. */
  ghost predicate Warranted(h: History, n: nat)
  {
    && 1 <= n <= |h.asked|
    && var reference := h.asked[n - 1].reference;
      match h.asked[n - 1].reason
      case OfTag(x, i) => IsSubject(h, x, n) && i < |h.formats.tags(x)| && h.formats.tags(x)[i] == reference
      case OfReferrer(x, i) => IsSubject(h, x, n) && i < |h.world.referrers(x)| && h.world.referrers(x)[i].digest == reference
      case OfAttestation(i) => i < |h.image.attestations| && h.image.attestations[i].digest == reference
      case OfChild(m, i) => m < n && i < |ChildrenOf(h, m)| && ChildrenOf(h, m)[i].digest == reference
  }

  /** The children that the document of a request names. */
  function ChildrenOf(h: History, n: nat): seq<Descriptor>
    requires n <= |h.asked|
  {
    var r := Obtained(h, n);
    if r.Found? && h.formats.isIndexType(r.mediaType) && h.formats.parse(r.body).Some? then h.formats.parse(r.body).value.manifests
    else []
  }

  /** The query that a request is for, unless it is for a child. */
  ghost predicate Wanted(h: History, q: Query)
  {
    && Warranted(h, q.at)
    && match h.asked[q.at - 1].reason
      case OfTag(x, _) => q == Query(q.at, x, h.asked[q.at - 1].reference, false)
      case OfReferrer(x, _) => q == Query(q.at, x, "", true)
      case OfAttestation(_) => q == Query(q.at, h.image.digest, "", false)
      case OfChild(_, _) => false
  }

  ghost predicate Queried(h: History, q: Query)
  {
    q.at <= |h.asked| && Obtained(h, q.at).Found? && (q == Query(0, "", "", false) || Wanted(h, q))
  }

  /** The record of the document that request number n gave. */
  ghost predicate FromDoc(h: History, a: Artifact, n: nat, subject: string, tag: string, required: bool)
  {
    && n <= |h.asked| && Obtained(h, n).Found?
    && var r := Obtained(h, n);
      && Acceptable(h.formats, subject, r.body, r.mediaType, required)
      && a == RecordOf(h.formats, subject, tag, r.body, r.mediaType, r.digest, h.formats.parse(r.body).value)
  }

  ghost predicate TagSeen(h: History, tag: string, d: string)
  {
    exists n: nat :: 1 <= n <= |h.asked| && h.asked[n - 1].reference == tag && Obtains(h, n, d)
  }

  ghost predicate AsChild(h: History, q: Query, d: string)
  {
    1 <= q.at <= |h.asked| && h.asked[q.at - 1].reference == d && q.subject == "" && !q.required
  }

  /** A record is that of a document obtained on request, and its tag was seen to point to it. */
  ghost predicate Recorded(h: History, a: Artifact, d: string)
  {
    && (exists q :: (Queried(h, q) || AsChild(h, q, d)) && Obtains(h, q.at, d) && FromDoc(h, a, q.at, q.subject, a.tag, q.required))
    && (a.tag == "" || TagSeen(h, a.tag, d))
  }

  /** Every record is, and every request was needed, no two for the same reason. */
  ghost predicate Truthful(h: History, found: map<string, Artifact>)
  {
    && (forall d | d in found :: Recorded(h, found[d], d))
    && (forall n: nat | 1 <= n <= |h.asked| :: Warranted(h, n))
    && (forall i, k | 0 <= i < k < |h.asked| :: h.asked[i].reason != h.asked[k].reason)
  }

  /** All requests since are of some kind. */
  ghost predicate Since(h: History, k: History, kind: Reason -> bool)
  {
    forall n | |h.asked| <= n < |k.asked| :: kind(k.asked[n].reason)
  }

  ghost predicate Unused(h: History, why: Reason) { forall n | 0 <= n < |h.asked| :: h.asked[n].reason != why }

  ghost function Children(): Reason -> bool { (r: Reason) => r.OfChild? }

  ghost function ChildrenFrom(m: nat, i: nat): Reason -> bool { (r: Reason) => r.OfChild? && (r.of > m || (r.of == m && r.i < i)) }

  ghost function ChildrenAfter(m: nat): Reason -> bool { (r: Reason) => r.OfChild? && r.of >= m }

  ghost function ChildOnly(m: nat, i: nat): Reason -> bool { (r: Reason) => r.OfChild? && (r.of > m || r == OfChild(m, i)) }

  ghost function One(why: Reason): Reason -> bool { (r: Reason) => r.OfChild? || r == why }

  ghost function Tags(x: string, i: nat): Reason -> bool { (r: Reason) => r.OfChild? || (r.OfTag? && r.subject == x && r.i < i) }

  ghost function Referrers(x: string, i: nat): Reason -> bool
  {
    (r: Reason) => r.OfChild? || (r.OfReferrer? && r.subject == x && r.i < i)
  }

  ghost function Attestations(i: nat): Reason -> bool { (r: Reason) => r.OfChild? || (r.OfAttestation? && r.i < i) }

  ghost function About(x: string): Reason -> bool { (r: Reason) => r.OfTag? || r.OfReferrer? ==> r.subject == x }

  /** Nothing was asked for about a subject. */
  ghost predicate Unvisited(h: History, x: string)
  {
    forall n | 0 <= n < |h.asked| && (h.asked[n].reason.OfTag? || h.asked[n].reason.OfReferrer?) :: h.asked[n].reason.subject != x
  }

  /** Requests are only about these subjects. */
  ghost predicate OnlyAbout(h: History, visited: set<string>)
  {
    forall n | 0 <= n < |h.asked| && (h.asked[n].reason.OfTag? || h.asked[n].reason.OfReferrer?) :: h.asked[n].reason.subject in visited
  }

  lemma NextChild(a: History, b: History, c: History, m: nat, i: nat)
    requires Extends(a, b) && Extends(b, c) && Since(a, b, ChildrenFrom(m, i)) && Since(b, c, ChildOnly(m, i))
    ensures Since(a, c, ChildrenFrom(m, i + 1))
  {
  }

  lemma ThenStaged(a: History, b: History, c: History, m: nat, i: nat)
    requires Extends(a, b) && |b.asked| == |a.asked| + 1 && b.asked[|a.asked|].reason == OfChild(m, i) && m <= |a.asked|
    requires Extends(b, c) && Since(b, c, ChildrenAfter(|b.asked|))
    ensures Since(a, c, ChildOnly(m, i))
  {
  }

  lemma ChildrenOnly(a: History, b: History, m: nat, i: nat)
    requires Since(a, b, ChildrenFrom(m, i))
    ensures Since(a, b, ChildrenAfter(m))
  {
  }

  lemma SameWarrant(h: History, k: History, n: nat)
    requires Extends(h, k) && n <= |h.asked|
    ensures ChildrenOf(k, n) == ChildrenOf(h, n)
  {
    hide FetchedAs;
    SameObtained(h, k, n);
  }

  lemma SameObtained(h: History, k: History, n: nat)
    requires Extends(h, k) && n <= |h.asked|
    ensures Obtained(k, n) == Obtained(h, n) && (n >= 1 ==> k.asked[n - 1] == h.asked[n - 1])
  {
  }

  lemma SubjectStays(h: History, k: History, x: string, n: nat, m: nat)
    requires Extends(h, k) && IsSubject(h, x, n) && n <= m
    ensures IsSubject(k, x, m)
  {
    hide FetchedAs;
    if i: nat :| i < n && Obtains(h, i, x) {
      SameObtained(h, k, i);
      assert Obtains(k, i, x);
    }
  }

  lemma WarrantedStays(h: History, k: History, n: nat)
    requires Extends(h, k) && Warranted(h, n)
    ensures Warranted(k, n)
  {
    hide IsSubject, ChildrenOf;
    match h.asked[n - 1].reason
    case OfTag(x, i) => SubjectStays(h, k, x, n, n);
    case OfReferrer(x, i) => SubjectStays(h, k, x, n, n);
    case OfAttestation(i) =>
    case OfChild(m, i) => SameWarrant(h, k, m);
  }

  lemma WantedStays(h: History, k: History, q: Query)
    requires Extends(h, k) && Wanted(h, q)
    ensures Wanted(k, q)
  {
    WarrantedStays(h, k, q.at);
    SameAt(h, k, q.at);
    hide Warranted;
  }

  lemma SameAt(h: History, k: History, n: nat)
    requires Extends(h, k) && Warranted(h, n)
    ensures 1 <= n <= |h.asked| && k.asked[n - 1] == h.asked[n - 1]
  {
  }

  lemma QueriedStays(h: History, k: History, q: Query)
    requires Extends(h, k) && Queried(h, q)
    ensures Queried(k, q)
  {
    hide Wanted, FetchedAs;
    SameObtained(h, k, q.at);
    if Wanted(h, q) {
      WantedStays(h, k, q);
    }
  }

  lemma FromDocStays(h: History, k: History, a: Artifact, n: nat, subject: string, tag: string, required: bool)
    requires Extends(h, k) && FromDoc(h, a, n, subject, tag, required)
    ensures FromDoc(k, a, n, subject, tag, required)
  {
    hide Acceptable, FetchedAs;
    SameObtained(h, k, n);
  }

  lemma TagSeenStays(h: History, k: History, tag: string, d: string)
    requires Extends(h, k) && TagSeen(h, tag, d)
    ensures TagSeen(k, tag, d)
  {
    hide FetchedAs;
    var n: nat :| 1 <= n <= |h.asked| && h.asked[n - 1].reference == tag && Obtains(h, n, d);
    SameObtained(h, k, n);
    assert k.asked[n - 1].reference == tag && Obtains(k, n, d);
  }

  lemma RecordedStays(h: History, k: History, a: Artifact, d: string)
    requires Extends(h, k) && Recorded(h, a, d)
    ensures Recorded(k, a, d)
  {
    hide Queried, FromDoc, Obtained, TagSeen;
    var q :| (Queried(h, q) || AsChild(h, q, d)) && Obtains(h, q.at, d) && FromDoc(h, a, q.at, q.subject, a.tag, q.required);
    if Queried(h, q) {
      QueriedStays(h, k, q);
    }
    SameObtained(h, k, q.at);
    FromDocStays(h, k, a, q.at, q.subject, a.tag, q.required);
    if a.tag != "" {
      TagSeenStays(h, k, a.tag, d);
    }
  }

  function Asking(h: History, request: Request): History { h.(asked := h.asked + [request]) }

  /** One more request, for which there is need. */
  lemma TruthfulAsk(h: History, found: map<string, Artifact>, request: Request)
    requires Truthful(h, found) && Unused(h, request.reason) && Warranted(Asking(h, request), |h.asked| + 1)
    ensures Truthful(Asking(h, request), found)
  {
    hide Recorded, Warranted;
    var k := Asking(h, request);
    forall d | d in found ensures Recorded(k, found[d], d) {
      RecordedStays(h, k, found[d], d);
    }
    forall n: nat | 1 <= n <= |k.asked| ensures Warranted(k, n) {
      if n < |k.asked| {
        WarrantedStays(h, k, n);
      }
    }
  }

  lemma RecordedIsSubject(h: History, found: map<string, Artifact>, d: string)
    requires Truthful(h, found) && d in found
    ensures IsSubject(h, d, |h.asked| + 1)
  {
    hide Queried, FromDoc, Obtains, TagSeen, Warranted;
    assert Recorded(h, found[d], d);
    var q :| (Queried(h, q) || AsChild(h, q, d)) && Obtains(h, q.at, d) && FromDoc(h, found[d], q.at, q.subject, found[d].tag, q.required);
    AtMost(h, q.at, d);
  }

  lemma AtMost(h: History, n: nat, d: string)
    requires Obtains(h, n, d)
    ensures n <= |h.asked|
  {
  }

  // ---- where a staged graph comes from ----

  /** A staged record: the root's, or that of a child asked for since. */
  ghost predicate Placed(h: History, q: Query, root: string, a: Artifact, d: string)
  {
    if d == root then FromDoc(h, a, q.at, q.subject, q.tag, q.required)
    else exists n: nat :: q.at < n <= |h.asked| && h.asked[n - 1].reference == d && Obtains(h, n, d) && FromDoc(h, a, n, "", "", false)
  }

  /** The graph is about the document of a query, and everything in it was obtained since and is reached
      from that document. */
  ghost predicate Grounded(h: History, q: Query, root: string, pending: map<string, Artifact>)
  {
    && Queried(h, q) && Obtains(h, q.at, root) && Rooted(pending, root)
    && forall d | d in pending :: Placed(h, q, root, pending[d], d)
  }

  lemma PlacedStays(h: History, k: History, q: Query, root: string, a: Artifact, d: string)
    requires Extends(h, k) && Placed(h, q, root, a, d)
    ensures Placed(k, q, root, a, d)
  {
    hide FromDoc, Obtained;
    if d == root {
      FromDocStays(h, k, a, q.at, q.subject, q.tag, q.required);
    } else {
      var n: nat :| q.at < n <= |h.asked| && h.asked[n - 1].reference == d && Obtains(h, n, d) && FromDoc(h, a, n, "", "", false);
      SameObtained(h, k, n);
      FromDocStays(h, k, a, n, "", "", false);
      assert Obtains(k, n, d);
    }
  }

  lemma GroundedStays(h: History, k: History, q: Query, root: string, pending: map<string, Artifact>)
    requires Extends(h, k) && Grounded(h, q, root, pending)
    ensures Grounded(k, q, root, pending)
  {
    hide Placed, Queried, Rooted, Obtained;
    QueriedStays(h, k, q);
    SameObtained(h, k, q.at);
    forall d | d in pending ensures Placed(k, q, root, pending[d], d) {
      PlacedStays(h, k, q, root, pending[d], d);
    }
  }

  lemma GroundedEnter(h: History, q: Query, root: string, pending: map<string, Artifact>, d: string, a: Artifact)
    requires Grounded(h, q, root, pending) && Placed(h, q, root, a, d) && d !in pending && (d == root || HasParent(pending, d))
    ensures Grounded(h, q, root, pending[d := a])
  {
    hide Placed, Queried, Rooted, Obtains, HasParent;
    RootedEnter(pending, root, d, a);
  }

  lemma NothingGrounded(h: History, q: Query, root: string)
    requires Queried(h, q) && Obtains(h, q.at, root)
    ensures Grounded(h, q, root, map[])
  {
    hide Queried, Obtains;
  }

  /** What is to be staged next: the root itself, or a child just asked for. */
  ghost predicate Arrived(h: History, q: Query, root: string, d: string, subject: string, tag: string, required: bool)
  {
    if d == root then q == Query(|h.asked|, subject, tag, required)
    else q.at < |h.asked| && h.asked[|h.asked| - 1].reference == d && subject == "" && tag == "" && !required
  }

  /** The record of an acceptable document that arrived, with valid children. */
  lemma AcceptedRecord(h: History, q: Query, root: string, subject: string, tag: string, body: Data, mediaType: string, d: string, required: bool)
    requires Arrived(h, q, root, d, subject, tag, required) && Obtained(h, |h.asked|) == Found(body, mediaType, d)
    requires Acceptable(h.formats, subject, body, mediaType, required)
    ensures var a := RecordOf(h.formats, subject, tag, body, mediaType, d, h.formats.parse(body).value);
      && Placed(h, q, root, a, d) && a.digest == d && a.size == |body| && a.mediaType == mediaType
      && forall c | c in a.manifests :: ChildOk(h.formats, c)
  {
    hide FetchedAs;
    var a := RecordOf(h.formats, subject, tag, body, mediaType, d, h.formats.parse(body).value);
    assert FromDoc(h, a, |h.asked|, subject, tag, required);
    assert Obtains(h, |h.asked|, d);
  }

  /** A child that the document of request number m names may be asked for, once. */
  lemma ChildWarranted(h: History, m: nat, i: nat)
    requires m <= |h.asked| && i < |ChildrenOf(h, m)|
    ensures Warranted(Asking(h, Request(ChildrenOf(h, m)[i].digest, OfChild(m, i))), |h.asked| + 1)
  {
    hide ChildrenOf;
    SameWarrant(h, Asking(h, Request(ChildrenOf(h, m)[i].digest, OfChild(m, i))), m);
  }

  /** The document just obtained has had no child asked for. */
  lemma NoChildUsed(h: History, found: map<string, Artifact>, i: nat)
    requires Truthful(h, found)
    ensures Unused(h, OfChild(|h.asked|, i))
  {
    hide Recorded, IsSubject, ChildrenOf;
    forall n | 0 <= n < |h.asked| ensures h.asked[n].reason != OfChild(|h.asked|, i) {
      assert Warranted(h, n + 1);
    }
  }

  lemma ChildStillUnused(h: History, k: History, i: nat)
    requires Extends(h, k) && Since(h, k, ChildrenFrom(|h.asked|, i)) && Unused(h, OfChild(|h.asked|, i))
    ensures Unused(k, OfChild(|h.asked|, i))
  {
  }

  lemma DocChildren(h: History, subject: string, tag: string, body: Data, mediaType: string, d: string, required: bool)
    requires Obtained(h, |h.asked|) == Found(body, mediaType, d) && Acceptable(h.formats, subject, body, mediaType, required)
    ensures RecordOf(h.formats, subject, tag, body, mediaType, d, h.formats.parse(body).value).manifests == ChildrenOf(h, |h.asked|)
  {
    hide FetchedAs, SubjectOk, ContentOk;
  }

  /** A complete graph is committed: its records are true ones. */
  lemma CommittedTrue(h: History, q: Query, root: string, found: map<string, Artifact>, pending: map<string, Artifact>)
    requires Truthful(h, found) && Grounded(h, q, root, pending)
    ensures Truthful(h, found + pending)
  {
    hide Placed, Recorded, Warranted;
    forall d | d in found + pending ensures Recorded(h, (found + pending)[d], d) {
      if d in pending {
        PlacedRecorded(h, q, root, pending[d], d);
      }
    }
  }

  lemma PlacedRecorded(h: History, q: Query, root: string, a: Artifact, d: string)
    requires Placed(h, q, root, a, d) && Queried(h, q) && Obtains(h, q.at, root)
    ensures Recorded(h, a, d)
  {
    hide FetchedAs, Acceptable, IsSubject;
    if d == root {
      assert a.tag == q.tag;
      assert FromDoc(h, a, q.at, q.subject, a.tag, q.required);
      if a.tag != "" {
        assert h.asked[q.at - 1].reference == a.tag;
      }
    } else {
      var n: nat :| q.at < n <= |h.asked| && h.asked[n - 1].reference == d && Obtains(h, n, d) && FromDoc(h, a, n, "", "", false);
      assert AsChild(h, Query(n, "", "", false), d);
      assert a.tag == "";
    }
  }

  /** A record gains the tag it lacks. */
  lemma RetaggedTrue(h: History, found: map<string, Artifact>, d: string, q: Query)
    requires Truthful(h, found) && d in found && found[d].tag == "" && Queried(h, q) && Obtains(h, q.at, d)
    ensures Truthful(h, found[d := found[d].(tag := q.tag)])
  {
    hide Queried, Obtains, FromDoc, Warranted, Wanted;
    var a := found[d].(tag := q.tag);
    assert Recorded(h, found[d], d);
    var was :| (Queried(h, was) || AsChild(h, was, d)) && Obtains(h, was.at, d)
      && FromDoc(h, found[d], was.at, was.subject, found[d].tag, was.required);
    RetaggedDoc(h, found[d], was.at, was.subject, was.required, q.tag);
    if q.tag != "" {
      QueriedTag(h, q, d);
    }
    assert Recorded(h, a, d);
  }

  lemma RetaggedDoc(h: History, a: Artifact, n: nat, subject: string, required: bool, tag: string)
    requires FromDoc(h, a, n, subject, a.tag, required)
    ensures FromDoc(h, a.(tag := tag), n, subject, tag, required)
  {
    hide FetchedAs, Acceptable;
  }

  lemma QueriedTag(h: History, q: Query, d: string)
    requires Queried(h, q) && Obtains(h, q.at, d) && q.tag != ""
    ensures TagSeen(h, q.tag, d)
  {
    hide FetchedAs, IsSubject;
  }

  // ---- why a graph is refused ----

  /** Why an artifact is not collected: a bound was reached before it was asked for, its request failed,
      or the graph of the document that a request gave was refused: the reason, what was found before,
      what was staged so far, and the requests made by then. */
  datatype Refusal =
    | Capped(found: map<string, Artifact>, upto: nat)
    | Unserved(at: nat)
    | Rejected(why: Failure, found: map<string, Artifact>, staging: map<string, Artifact>, upto: nat, query: Query)

  /** A blob of the document that request number n gave could not be had, or came damaged. */
  ghost predicate BlobFault(f: Formats, w: World, why: Failure, b: BlobRef, n: nat)
  {
    (why == Fetch && w.blob(f.path(b.digest), n).Unavailable?) || (why == Storage && w.blob(f.path(b.digest), n).Corrupt?)
  }

  /** Staging a document right after request number n was cancelled, or failed at writing it or at one of
      its blobs. */
  ghost predicate DocFault(f: Formats, w: World, why: Failure, r: Fetched, n: nat)
    requires r.Found?
  {
    || (why == Cancelled && !w.live(r.digest, n))
    || (why == Storage && !w.store(f.path(r.digest), n))
    || (f.parse(r.body).Some? && !f.isIndexType(r.mediaType) &&
        exists b :: b in Contents(f.parse(r.body).value) && BlobFault(f, w, why, b, n))
  }

  /** The document that the last request gave is not acceptable, or staging it failed. */
  ghost predicate OwnFault(h: History, why: Failure, subject: string, required: bool)
  {
    var r := Obtained(h, |h.asked|);
    r.Found? && ((why == Invalid && !Acceptable(h.formats, subject, r.body, r.mediaType, required))
                 || DocFault(h.formats, h.world, why, r, |h.asked|))
  }

  /** What the last request, which was for a child, gave is not what its entry names, or cannot be staged. */
  ghost predicate ChildFails(h: History, why: Failure, c: Descriptor)
  {
    && h.asked != [] && h.asked[|h.asked| - 1].reference == c.digest
    && var r := Obtained(h, |h.asked|);
      if !r.Found? then why == Fetch
      else (why == Mismatch && (|r.body| != c.size || r.mediaType != c.mediaType)) || OwnFault(h, why, "", false)
  }

  ghost predicate ChildFault(h: History, why: Failure, staging: map<string, Artifact>)
  {
    exists p, c :: p in staging && c in staging[p].manifests && ChildFails(h, why, c)
  }

  /** Some child entry contradicts the record that is there. */
  ghost predicate WrongChild(found: map<string, Artifact>, staging: map<string, Artifact>)
  {
    exists p, c :: p in staging && c in staging[p].manifests && Contradicted(found, staging, c)
  }

  ghost predicate Contradicted(found: map<string, Artifact>, staging: map<string, Artifact>, c: Descriptor)
  {
    || (c.digest in found && (found[c.digest].size != c.size || found[c.digest].mediaType != c.mediaType))
    || (c.digest in staging && (staging[c.digest].size != c.size || staging[c.digest].mediaType != c.mediaType))
  }

  /** Some child is still to be asked for. */
  ghost predicate Lacking(found: map<string, Artifact>, staging: map<string, Artifact>)
  {
    exists p, c :: p in staging && c in staging[p].manifests && c.digest !in staging && c.digest !in found
  }

  /** One is, below a path from the root that is as long as paths may be. */
  ghost predicate DeepPath(found: map<string, Artifact>, staging: map<string, Artifact>, root: string)
  {
    exists path, d :: IsPath(staging, path) && Distinct(path) && |path| > 16 && path[0] == root
      && IsChild(staging[path[|path| - 1]], d) && d !in staging && d !in found
  }

  ghost predicate LimitMet(h: History, found: map<string, Artifact>, staging: map<string, Artifact>, root: string)
  {
    || |staging| + |found| >= 64 || (|h.asked| >= 256 && Lacking(found, staging))
    || DeepPath(found, staging, root)
  }

  /** A request or a write for a document below the root failed, or such documents are at fault in the
      way the reason says, or one of the bounds is reached. */
  ghost predicate Below(h: History, root: string, why: Failure, found: map<string, Artifact>, staging: map<string, Artifact>)
  {
    || (why == Cycle && HasCycle(staging)) || (why == Limit && LimitMet(h, found, staging, root))
    || (why == Mismatch && WrongChild(found, staging)) || ChildFault(h, why, staging)
  }

  /** The evidence for a rejection, at the time of the last request: the graph is that of the query's
      document, and the fault is at the document itself, before anything else was asked for, or below it. */
  ghost predicate Justified(h: History, d: string, why: Failure, found: map<string, Artifact>, staging: map<string, Artifact>, q: Query)
  {
    && Grounded(h, q, d, staging) && staging.Keys !! found.Keys
    && (Below(h, d, why, found, staging) || (q.at == |h.asked| && staging == map[] && OwnFault(h, why, q.subject, q.required)))
  }

  /** Records that are still there, but for the tags they may have gained. */
  ghost predicate Within(found: map<string, Artifact>, now: map<string, Artifact>)
  {
    forall d | d in found :: d in now && now[d] == found[d].(tag := now[d].tag)
  }

  function Until(h: History, n: nat): History
    requires n <= |h.asked|
  {
    h.(asked := h.asked[..n])
  }

  /** Why an artifact was refused is true of the requests made and the records found. */
  ghost predicate RefusalOk(h: History, found: map<string, Artifact>, d: string, r: Refusal)
  {
    match r
    case Capped(held, upto) => upto <= |h.asked| && Within(held, found) && (|held| >= 64 || upto >= 256)
    case Unserved(at) => 1 <= at <= |h.asked| && h.asked[at - 1].reference == d && !Obtained(h, at).Found?
    case Rejected(why, held, staging, upto, q) =>
      upto <= |h.asked| && Within(held, found) && Justified(Until(h, upto), d, why, held, staging, q)
  }

  ghost predicate RefusalsOk(h: History, found: map<string, Artifact>, refusals: map<string, Refusal>)
  {
    forall d | d in refusals :: RefusalOk(h, found, d, refusals[d])
  }

  lemma WithinTrans(a: map<string, Artifact>, b: map<string, Artifact>, c: map<string, Artifact>)
    requires Within(a, b) && Within(b, c)
    ensures Within(a, c)
  {
  }

  lemma RefusalStays(h: History, found: map<string, Artifact>, k: History, now: map<string, Artifact>, d: string, r: Refusal)
    requires RefusalOk(h, found, d, r) && Extends(h, k) && Within(found, now)
    ensures RefusalOk(k, now, d, r)
  {
    hide Justified, Within, FetchedAs;
    match r
    case Capped(held, upto) => WithinTrans(held, found, now);
    case Unserved(at) => SameObtained(h, k, at);
    case Rejected(why, held, staging, upto, q) =>
      WithinTrans(held, found, now);
      assert Until(h, upto) == Until(k, upto);
  }

  lemma RefusalsStay(h: History, found: map<string, Artifact>, k: History, now: map<string, Artifact>, refusals: map<string, Refusal>)
    requires RefusalsOk(h, found, refusals) && Extends(h, k) && Within(found, now)
    ensures RefusalsOk(k, now, refusals)
  {
    hide RefusalOk, Within, Extends;
    forall d | d in refusals ensures RefusalOk(k, now, d, refusals[d]) {
      RefusalStays(h, found, k, now, d, refusals[d]);
    }
  }

  lemma RefusedNow(h: History, found: map<string, Artifact>, d: string, why: Failure, staging: map<string, Artifact>, q: Query)
    requires Justified(h, d, why, found, staging, q)
    ensures RefusalOk(h, found, d, Rejected(why, found, staging, |h.asked|, q))
  {
    hide Justified;
    assert Until(h, |h.asked|) == h;
  }

  lemma BecauseChild(h: History, root: string, why: Failure, found: map<string, Artifact>, staging: map<string, Artifact>,
                     p: string, c: Descriptor)
    requires p in staging && c in staging[p].manifests && ChildFails(h, why, c)
    ensures Below(h, root, why, found, staging)
  {
    hide ChildFails;
  }

  lemma BecauseWrong(h: History, root: string, found: map<string, Artifact>, staging: map<string, Artifact>, p: string, c: Descriptor)
    requires p in staging && c in staging[p].manifests && Contradicted(found, staging, c)
    ensures Below(h, root, Mismatch, found, staging)
  {
  }

  lemma BecauseDeep(h: History, root: string, found: map<string, Artifact>, staging: map<string, Artifact>, visiting: set<string>,
                    trail: seq<string>, d: string)
    requires Leads(staging, visiting, trail, root, d) && |trail| > MAX_DEPTH && d !in staging && d !in found
    ensures Below(h, root, Limit, found, staging)
  {
    hide IsChild, Distinct, IsPath;
  }

  lemma BecauseSpent(h: History, root: string, found: map<string, Artifact>, staging: map<string, Artifact>, p: string, c: Descriptor)
    requires |h.asked| >= MAX_FETCHES && p in staging && c in staging[p].manifests && c.digest !in staging && c.digest !in found
    ensures Below(h, root, Limit, found, staging)
  {
  }

  lemma BecauseFull(h: History, root: string, found: map<string, Artifact>, staging: map<string, Artifact>)
    requires |staging| + |found| >= MAX_ARTIFACTS
    ensures Below(h, root, Limit, found, staging)
  {
  }

  lemma BecauseCycle(h: History, root: string, found: map<string, Artifact>, staging: map<string, Artifact>)
    requires HasCycle(staging)
    ensures Below(h, root, Cycle, found, staging)
  {
  }

  lemma LeadsParent(pending: map<string, Artifact>, visiting: set<string>, trail: seq<string>, root: string, d: string)
    requires Leads(pending, visiting, trail, root, d)
    ensures d == root || HasParent(pending, d)
  {
    hide IsChild;
  }

  lemma RootStaged(pending: map<string, Artifact>, visiting: set<string>, trail: seq<string>, root: string)
    requires Trail(pending, visiting, trail, root) && trail != []
    ensures root in pending
  {
    hide IsChild;
  }

  // ---- what a collection accounts for ----

  /** What a collector holds at some time. */
  datatype Snapshot = Snapshot(
    found: map<string, Artifact>, order: seq<string>, files: seq<ManifestFile>, staged: set<string>, skip: set<string>, log: History)

  /** Nothing collected is lost or changed, except that a record without a tag may gain one. */
  ghost predicate Keeps(a: Snapshot, b: Snapshot)
  {
    && a.order <= b.order && a.files <= b.files && a.staged <= b.staged && a.skip == b.skip && Extends(a.log, b.log)
    && Within(a.found, b.found) && forall d | d in a.found && a.found[d].tag != "" :: b.found[d].tag == a.found[d].tag
  }

  /** Whether a bound was reached. */
  ghost predicate CappedAt(s: Snapshot) { |s.found| >= MAX_ARTIFACTS || |s.log.asked| >= MAX_FETCHES }

  /** What is collected, skipped, or refused for a reason. */
  ghost function KnownOf(s: Snapshot, refusals: map<string, Refusal>): set<string>
  {
    s.found.Keys + s.skip + refusals.Keys
  }

  /** From one time to a later one: nothing is lost, and every refusal is on evidence. */
  ghost predicate Onward(a: Snapshot, before: map<string, Refusal>, b: Snapshot, refusals: map<string, Refusal>)
  {
    && Keeps(a, b) && RefusalsOk(b.log, b.found, refusals) && before.Keys <= refusals.Keys
    && KnownOf(a, before) <= KnownOf(b, refusals) && (CappedAt(a) ==> CappedAt(b))
  }

  /** The same refusals are still right, and known. */
  lemma OnwardKeeps(a: Snapshot, b: Snapshot, refusals: map<string, Refusal>)
    requires Keeps(a, b) && RefusalsOk(a.log, a.found, refusals)
    ensures Onward(a, refusals, b, refusals)
  {
    hide RefusalsOk;
    RefusalsStay(a.log, a.found, b.log, b.found, refusals);
    assert a.found.Keys <= b.found.Keys;
    assert b.found.Keys == a.found.Keys + (b.found.Keys - a.found.Keys);
    assert |a.found.Keys| <= |b.found.Keys|;
  }

  /** With one refusal more. */
  lemma OnwardMore(a: Snapshot, b: Snapshot, refusals: map<string, Refusal>, d: string, r: Refusal)
    requires Keeps(a, b) && RefusalsOk(a.log, a.found, refusals) && RefusalOk(b.log, b.found, d, r)
    ensures Onward(a, refusals, b, refusals[d := r])
  {
    hide RefusalOk, Keeps, CappedAt;
    OnwardKeeps(a, b, refusals);
  }

  lemma OnwardSelf(a: Snapshot, refusals: map<string, Refusal>)
    requires RefusalsOk(a.log, a.found, refusals)
    ensures Onward(a, refusals, a, refusals)
  {
    hide RefusalsOk;
  }

  lemma OnwardTrans(a: Snapshot, ra: map<string, Refusal>, b: Snapshot, rb: map<string, Refusal>, c: Snapshot, rc: map<string, Refusal>)
    requires Onward(a, ra, b, rb) && Onward(b, rb, c, rc)
    ensures Onward(a, ra, c, rc)
  {
    hide RefusalsOk, CappedAt;
  }

  lemma OnwardFacts(a: Snapshot, ra: map<string, Refusal>, b: Snapshot, rb: map<string, Refusal>)
    requires Onward(a, ra, b, rb)
    ensures RefusalsOk(b.log, b.found, rb) && Extends(a.log, b.log) && a.order <= b.order && a.skip == b.skip && ra.Keys <= rb.Keys
    ensures KnownOf(a, ra) <= KnownOf(b, rb) && (CappedAt(a) ==> CappedAt(b)) && forall d | d in a.found :: d in b.found
  {
    hide RefusalsOk, CappedAt;
  }

  /** Every valid referrer the registry lists for a subject is among the given digests. */
  ghost predicate ReferrersHandled(h: History, known: set<string>, subject: string)
  {
    forall desc | desc in h.world.referrers(subject) && h.formats.isDigest(desc.digest) :: desc.digest in known
  }

  /** A tag was asked for, and what it points to is among the given digests. */
  ghost predicate TagHandled(h: History, known: set<string>, tag: string)
  {
    exists n: nat :: 1 <= n <= |h.asked| && h.asked[n - 1].reference == tag && (Obtained(h, n).Found? ==> Obtained(h, n).digest in known)
  }

  /** So is every valid referrer, and everything that the subject's tags point to. */
  ghost predicate Handled(h: History, known: set<string>, subject: string)
  {
    ReferrersHandled(h, known, subject) && forall t | t in h.formats.tags(subject) :: TagHandled(h, known, t)
  }

  lemma TagIs(h: History, k: History, known: set<string>, tag: string)
    requires Extends(h, k) && h.asked != [] && h.asked[|h.asked| - 1].reference == tag
    requires Obtained(h, |h.asked|).Found? ==> Obtained(h, |h.asked|).digest in known
    ensures TagHandled(k, known, tag)
  {
    hide FetchedAs;
    SameObtained(h, k, |h.asked|);
  }

  lemma TagStays(h: History, k: History, known: set<string>, more: set<string>, tag: string)
    requires TagHandled(h, known, tag) && known <= more && Extends(h, k)
    ensures TagHandled(k, more, tag)
  {
    hide FetchedAs;
    var n: nat :| 1 <= n <= |h.asked| && h.asked[n - 1].reference == tag && (Obtained(h, n).Found? ==> Obtained(h, n).digest in known);
    SameObtained(h, k, n);
    assert k.asked[n - 1].reference == tag;
  }

  ghost predicate TagsHandled(h: History, known: set<string>, tags: seq<string>, i: nat)
    requires i <= |tags|
  {
    forall k | 0 <= k < i :: TagHandled(h, known, tags[k])
  }

  lemma TagsNext(a: Snapshot, ra: map<string, Refusal>, b: Snapshot, rb: map<string, Refusal>, tags: seq<string>, i: nat)
    requires i < |tags| && Onward(a, ra, b, rb)
    requires CappedAt(a) || TagsHandled(a.log, KnownOf(a, ra), tags, i)
    requires if CappedAt(a) then CappedAt(b) else TagHandled(b.log, KnownOf(b, rb), tags[i])
    ensures CappedAt(b) || TagsHandled(b.log, KnownOf(b, rb), tags, i + 1)
  {
    hide TagHandled, KnownOf, CappedAt, Onward, Extends;
    OnwardFacts(a, ra, b, rb);
    if !CappedAt(a) {
      forall k | 0 <= k < i ensures TagHandled(b.log, KnownOf(b, rb), tags[k]) {
        TagStays(a.log, b.log, KnownOf(a, ra), KnownOf(b, rb), tags[k]);
      }
    }
  }

  lemma HandledStays(h: History, k: History, known: set<string>, more: set<string>, subject: string)
    requires Handled(h, known, subject) && known <= more && Extends(h, k)
    ensures Handled(k, more, subject)
  {
    hide TagHandled;
    forall t | t in k.formats.tags(subject) ensures TagHandled(k, more, t) {
      TagStays(h, k, known, more, t);
    }
  }

  lemma HandledBoth(a: Snapshot, ra: map<string, Refusal>, b: Snapshot, rb: map<string, Refusal>, subject: string)
    requires Onward(a, ra, b, rb)
    requires CappedAt(a) || TagsHandled(a.log, KnownOf(a, ra), a.log.formats.tags(subject), |a.log.formats.tags(subject)|)
    requires CappedAt(b) || ReferrersHandled(b.log, KnownOf(b, rb), subject)
    ensures CappedAt(b) || Handled(b.log, KnownOf(b, rb), subject)
  {
    hide TagHandled, KnownOf, CappedAt, Onward, ReferrersHandled;
    OnwardFacts(a, ra, b, rb);
    if !CappedAt(b) {
      var tags := b.log.formats.tags(subject);
      forall i | 0 <= i < |tags| ensures TagHandled(b.log, KnownOf(b, rb), tags[i]) {
        TagStays(a.log, b.log, KnownOf(a, ra), KnownOf(b, rb), tags[i]);
      }
    }
  }

  /** Nothing listed for a visited subject was missed, unless a bound was reached. */
  ghost predicate AllHandled(visited: set<string>, s: Snapshot, refusals: map<string, Refusal>)
  {
    CappedAt(s) || forall x | x in visited :: Handled(s.log, KnownOf(s, refusals), x)
  }

  /** ... for the subjects or the artifacts. */
  ghost predicate Done(subjects: seq<string>, s: Snapshot, refusals: map<string, Refusal>)
  {
    CappedAt(s) || forall x | x in subjects || x in s.order :: Handled(s.log, KnownOf(s, refusals), x)
  }

  lemma NoneHandled(s: Snapshot, refusals: map<string, Refusal>)
    ensures AllHandled({}, s, refusals)
  {
  }

  lemma AllVisited(visited: set<string>, s: Snapshot, refusals: map<string, Refusal>)
    requires AllHandled(visited, s, refusals)
    ensures !CappedAt(s) ==> forall x | x in visited :: Handled(s.log, KnownOf(s, refusals), x)
  {
    hide Handled, KnownOf;
  }

  lemma AllHandledNext(visited: set<string>, subject: string, a: Snapshot, ra: map<string, Refusal>, b: Snapshot, rb: map<string, Refusal>)
    requires AllHandled(visited, a, ra) && Onward(a, ra, b, rb)
    requires CappedAt(b) || Handled(b.log, KnownOf(b, rb), subject)
    ensures AllHandled(visited + {subject}, b, rb)
  {
    hide Handled, KnownOf, CappedAt, Onward;
    OnwardFacts(a, ra, b, rb);
    if !CappedAt(b) {
      forall x | x in visited ensures Handled(b.log, KnownOf(b, rb), x) {
        HandledStays(a.log, b.log, KnownOf(a, ra), KnownOf(b, rb), x);
      }
    }
  }

  lemma RetagKeeps(f: Formats, found: map<string, Artifact>, order: seq<string>, files: seq<ManifestFile>, d: string, tag: string)
    requires Collected(f, found, order, files) && d in found
    ensures Collected(f, found[d := found[d].(tag := tag)], order, files)
  {
    var now := found[d := found[d].(tag := tag)];
    assert now.Keys == found.Keys;
    assert |now.Keys| == |found.Keys|;
    forall i | 0 <= i < |order| ensures Complete(map[], now, order[..i], now[order[i]]) {
      assert Complete(map[], found, order[..i], found[order[i]]);
      assert order[i] in order;
    }
  }

  /** A descriptor listed for a subject: as a referrer, or as an attestation of the image. */
  ghost predicate Offered(h: History, subject: string, desc: Descriptor, required: bool, why: Reason)
  {
    match why
    case OfReferrer(x, i) =>
      x == subject && required && IsSubject(h, x, |h.asked| + 1) && i < |h.world.referrers(x)| && h.world.referrers(x)[i] == desc
    case OfAttestation(i) => subject == h.image.digest && !required && i < |h.image.attestations| && h.image.attestations[i] == desc
    case _ => false
  }

  /** It may be asked for. */
  lemma OfferedWanted(h: History, subject: string, desc: Descriptor, required: bool, why: Reason)
    requires Offered(h, subject, desc, required, why)
    ensures var k := Asking(h, Request(desc.digest, why));
      Warranted(k, |k.asked|) && Wanted(k, Query(|k.asked|, subject, "", required))
  {
    hide IsSubject;
    var k := Asking(h, Request(desc.digest, why));
    if why.OfReferrer? {
      SubjectStays(h, k, subject, |h.asked| + 1, |k.asked|);
    }
  }

  lemma TagWanted(h: History, subject: string, i: nat)
    requires IsSubject(h, subject, |h.asked| + 1) && i < |h.formats.tags(subject)|
    ensures var tag := h.formats.tags(subject)[i];
      var k := Asking(h, Request(tag, OfTag(subject, i)));
      Warranted(k, |k.asked|) && Wanted(k, Query(|k.asked|, subject, tag, false))
  {
    hide IsSubject;
    SubjectStays(h, Asking(h, Request(h.formats.tags(subject)[i], OfTag(subject, i))), subject, |h.asked| + 1, |h.asked| + 1);
  }

  // ---- no reason is used twice ----

  lemma NothingSince(h: History, kind: Reason -> bool)
    ensures Since(h, h, kind)
  {
  }

  lemma NotYet(h: History, visited: set<string>, x: string)
    requires OnlyAbout(h, visited) && x !in visited
    ensures Unvisited(h, x)
  {
  }

  lemma OnlyAboutMore(h: History, k: History, visited: set<string>, x: string)
    requires OnlyAbout(h, visited) && Extends(h, k) && Since(h, k, About(x))
    ensures OnlyAbout(k, visited + {x})
  {
  }

  ghost predicate NoReferrers(h: History, x: string)
  {
    forall n | 0 <= n < |h.asked| && h.asked[n].reason.OfReferrer? :: h.asked[n].reason.subject != x
  }

  lemma NoReferrerUsed(h: History, k: History, x: string)
    requires Unvisited(h, x) && Extends(h, k) && Since(h, k, Tags(x, |h.formats.tags(x)|))
    ensures NoReferrers(k, x)
  {
  }

  lemma AboutBoth(a: History, b: History, c: History, x: string)
    requires Extends(a, b) && Extends(b, c)
    requires Since(a, b, Tags(x, |a.formats.tags(x)|)) && Since(b, c, Referrers(x, |a.world.referrers(x)|))
    ensures Since(a, c, About(x))
  {
  }

  lemma TagUnused(h: History, k: History, x: string, i: nat)
    requires Unvisited(h, x) && Extends(h, k) && Since(h, k, Tags(x, i))
    ensures Unused(k, OfTag(x, i))
  {
  }

  lemma TagsSince(a: History, b: History, c: History, x: string, i: nat)
    requires Extends(a, b) && Extends(b, c) && Since(a, b, Tags(x, i)) && Since(b, c, One(OfTag(x, i)))
    ensures Since(a, c, Tags(x, i + 1))
  {
  }

  lemma ReferrerUnused(h: History, k: History, x: string, i: nat)
    requires NoReferrers(h, x) && Extends(h, k) && Since(h, k, Referrers(x, i))
    ensures Unused(k, OfReferrer(x, i))
  {
  }

  lemma ReferrersSince(a: History, b: History, c: History, x: string, i: nat)
    requires Extends(a, b) && Extends(b, c) && Since(a, b, Referrers(x, i)) && Since(b, c, One(OfReferrer(x, i)))
    ensures Since(a, c, Referrers(x, i + 1))
  {
  }

  lemma ReferrersWider(a: History, b: History, x: string, i: nat)
    requires Since(a, b, Referrers(x, i)) && i <= |a.world.referrers(x)|
    ensures Since(a, b, Referrers(x, |a.world.referrers(x)|))
  {
  }

  lemma AttestationUnused(h: History, k: History, i: nat)
    requires (forall n | 0 <= n < |h.asked| :: h.asked[n].reason.OfChild?) && Extends(h, k) && Since(h, k, Attestations(i))
    ensures Unused(k, OfAttestation(i))
  {
  }

  lemma AttestationsSince(a: History, b: History, c: History, i: nat)
    requires Extends(a, b) && Extends(b, c) && Since(a, b, Attestations(i)) && Since(b, c, One(OfAttestation(i)))
    ensures Since(a, c, Attestations(i + 1))
  {
  }

  lemma NotAbout(h: History, k: History, i: nat)
    requires (forall n | 0 <= n < |h.asked| :: h.asked[n].reason.OfChild?) && Extends(h, k) && Since(h, k, Attestations(i))
    ensures OnlyAbout(k, {})
  {
  }

  // ---- the collector ----

  /** artifactCollector. */
  class Collector {
    const formats: Formats
    const world: World
    const image: Image
    var staged: set<string>
    var skip: set<string>
    var found: map<string, Artifact>
    var order: seq<string>
    var files: seq<ManifestFile>
    var attempts: nat
    var capped: bool
    ghost var asked: seq<Request> // what was asked for upstream, and why

    constructor (formats: Formats, world: World, image: Image, staged: set<string>)
      ensures Valid() && found == map[] && order == [] && asked == []
      ensures this.formats == formats && this.world == world && this.image == image
      ensures skip == {image.digest} + (if image.index != "" then {image.index} else {})
    {
      this.formats, this.world, this.image, this.staged := formats, world, image, staged;
      skip := {image.digest} + (if image.index != "" then {image.index} else {});
      found, order, files, attempts, capped, asked := map[], [], [], 0, false, [];
    }

    ghost predicate Valid()
      reads this
    {
      Collected(formats, found, order, files) && |asked| == attempts <= MAX_FETCHES && Truthful(Log(), found)
    }

    ghost function Log(): History
      reads this
    {
      History(formats, world, image, asked)
    }

    ghost function Now(): Snapshot
      reads this
    {
      Snapshot(found, order, files, staged, skip, Log())
    }

    /** capReached. */
    method CapReached() returns (reached: bool)
      modifies this`capped
      ensures reached <==> |found| >= MAX_ARTIFACTS || attempts >= MAX_FETCHES
      ensures capped <==> old(capped) || reached
    {
      reached := !(|found| < MAX_ARTIFACTS && attempts < MAX_FETCHES);
      if reached {
        capped := true;
      }
    }

    /** What was served is a manifest or an index, and what the digest names, if it was asked for by digest. */
    predicate Authentic(reference: string, a: Answer)
      requires a.Served?
    {
      && (formats.isManifestType(a.mediaType) || formats.isIndexType(a.mediaType))
      && (formats.isDigest(reference) ==> formats.hash(a.body) == reference)
    }

    /** fetchArtifactManifest. The registry may answer anything; a digest asked for is checked. */
    method FetchManifest(reference: string, ghost why: Reason) returns (r: Fetched)
      modifies this`asked
      ensures asked == old(asked) + [Request(reference, why)]
      ensures r == FetchedAs(formats, reference, world.manifest(reference, attempts))
      ensures r.Found? <==> world.manifest(reference, attempts).Served? && Authentic(reference, world.manifest(reference, attempts))
      ensures r.Found? ==> r == Found(world.manifest(reference, attempts).body, world.manifest(reference, attempts).mediaType, r.digest)
      ensures r.Missing? <==> world.manifest(reference, attempts).NotFound?
      ensures r.Found? ==> r.digest == formats.hash(r.body) && DocumentType(formats, r.mediaType)
      ensures r.Found? && formats.isDigest(reference) ==> r.digest == reference
    {
      asked := asked + [Request(reference, why)];
      r := FetchedAs(formats, reference, world.manifest(reference, attempts));
    }

    /** One request, counted before it is made. */
    method Ask(reference: string, ghost why: Reason) returns (r: Fetched)
      requires Valid() && attempts < MAX_FETCHES
      requires Unused(Log(), why) && Warranted(Asking(Log(), Request(reference, why)), |asked| + 1)
      modifies this`asked, this`attempts
      ensures Valid() && Log() == Asking(old(Log()), Request(reference, why)) && r == Obtained(Log(), |asked|)
      ensures Keeps(old(Now()), Now())
      ensures r.Found? && formats.isDigest(reference) ==> r.digest == reference
    {
      hide Collected, Truthful, Warranted, Within, Unused;
      TruthfulAsk(Log(), found, Request(reference, why));
      attempts := attempts + 1;
      r := FetchManifest(reference, why);
      SameWithin(found);
    }

    lemma SameWithin(records: map<string, Artifact>)
      ensures Within(records, records)
    {
    }

    /** collectGraph: commits the manifest just obtained with everything it requires, or changes nothing
        but the requests made, and then for a reason. What it adds is exactly what the manifest reaches. */
    method CollectGraph(subject: string, tag: string, body: Data, mediaType: string, digest: string, requireSubject: bool)
      returns (err: Option<Failure>, ghost refusal: Refusal)
      requires Valid() && Queried(Log(), Query(|asked|, subject, tag, requireSubject))
      requires Obtained(Log(), |asked|) == Found(body, mediaType, digest)
      modifies this
      ensures Valid() && Extends(old(Log()), Log()) && Since(old(Log()), Log(), Children()) && skip == old(skip)
      ensures err.Some? ==> found == old(found) && order == old(order) && files == old(files) && staged == old(staged)
      ensures err.Some? ==> RefusalOk(Log(), found, digest, refusal) && refusal.Rejected? && refusal.why == err.value
      ensures err.None? ==> digest in found && old(order) <= order && old(files) <= files && old(staged) <= staged
      ensures err.None? && digest !in old(found) ==>
        Acceptable(formats, subject, body, mediaType, requireSubject) && formats.parse(body).Some? &&
        found[digest] == RecordOf(formats, subject, tag, body, mediaType, digest, formats.parse(body).value)
      ensures forall d | d in old(found) :: d in found && found[d] == old(found)[d]
      ensures forall d | d in found && d !in old(found) :: Reaches(found, digest, d)
    {
      hide Staged, Collected, Complete, Covered, HasParent, IsChild, IsPath, Reaches, Below, OwnFault, Grounded, Truthful, Queried,
        FetchedAs, Acceptable, RefusalOk;
      ghost var q := Query(|asked|, subject, tag, requireSubject);
      var g := new RequiredGraph(this, q, digest);
      TrailStarts(digest);
      err := g.Stage(subject, tag, body, mediaType, digest, requireSubject, 0, []);
      g.Facts();
      refusal := Rejected(if err.Some? then err.value else Cancelled, found, g.pending, |asked|, q);
      if err.Some? {
        g.Refused(err.value);
        return;
      }
      g.Reached();
      Commit(g);
    }

    lemma TrailStarts(root: string)
      ensures Leads(map[], {}, [], root, root)
    {
    }

    /** The commit at the end of collectGraph. */
    method Commit(g: RequiredGraph)
      requires g.collector == this && g.Valid() && g.visiting == {}
      modifies this
      ensures Valid() && asked == old(asked) && skip == old(skip)
      ensures found == old(found) + g.pending && order == old(order) + g.order && files == old(files) + g.files
      ensures staged == g.staged
    {
      hide Staged, Collected, Complete, Covered, Truthful, Grounded;
      g.Facts();
      g.Committed();
      for i := 0 to |g.order|
        invariant order == old(order) + g.order[..i] && files == old(files) && staged == old(staged)
        invariant attempts == old(attempts) && asked == old(asked) && skip == old(skip)
        invariant forall d :: d in found <==> d in old(found) || d in g.order[..i]
        invariant forall d | d in found :: found[d] == if d in old(found) then old(found)[d] else g.pending[d]
      {
        var key := g.order[i];
        assert key in g.order;
        found := found[key := g.pending[key]];
        order := order + [key];
        assert g.order[..i + 1] == g.order[..i] + [key];
      }
      assert g.order[..|g.order|] == g.order;
      files := files + g.files;
      staged := staged + g.staged;
      assert found == old(found) + g.pending;
    }

    /** record: keeps the manifest just obtained. One already kept only gains the tag it lacks. */
    method Record(subject: string, tag: string, body: Data, mediaType: string, digest: string, requireSubject: bool)
      returns (ghost why: Option<Refusal>)
      requires Valid() && Queried(Log(), Query(|asked|, subject, tag, requireSubject))
      requires Obtained(Log(), |asked|) == Found(body, mediaType, digest)
      modifies this
      ensures Valid() && Keeps(old(Now()), Now()) && Since(old(Log()), Log(), Children())
      ensures why.None? ==> digest in found || digest in skip
      ensures digest in skip ==> why.None? && Now() == old(Now())
      ensures why.Some? ==> RefusalOk(Log(), found, digest, why.value)
      ensures why.None? && digest !in skip && digest !in old(found) ==>
        Acceptable(formats, subject, body, mediaType, requireSubject) && formats.parse(body).Some? &&
        found[digest] == RecordOf(formats, subject, tag, body, mediaType, digest, formats.parse(body).value)
      ensures digest !in skip && digest in old(found) ==>
        found == old(found)[digest := old(found)[digest].(tag := if old(found)[digest].tag == "" then tag else old(found)[digest].tag)]
    {
      hide Collected, Reaches, Justified, Truthful, Queried, FetchedAs, Acceptable;
      why := None;
      if digest in skip {
        return;
      }
      if digest in found {
        var prev := found[digest];
        if prev.tag == "" {
          RetagKeeps(formats, found, order, files, digest, tag);
          RetaggedTrue(Log(), found, digest, Query(|asked|, subject, tag, requireSubject));
          found := found[digest := prev.(tag := tag)];
        }
        return;
      }
      if |found| >= MAX_ARTIFACTS {
        capped := true;
        why := Some(Capped(found, |asked|));
        return;
      }
      var err, refusal := CollectGraph(subject, tag, body, mediaType, digest, requireSubject);
      if err.Some? {
        why := Some(refusal);
      }
    }

    /** addByTag: the artifact at a tag, if there is one and the budget allows asking. */
    method AddByTag(subject: string, tag: string, ghost i: nat, ghost refusals: map<string, Refusal>)
      returns (ghost more: map<string, Refusal>)
      requires Valid() && RefusalsOk(Log(), found, refusals) && IsSubject(Log(), subject, |asked| + 1)
      requires i < |formats.tags(subject)| && formats.tags(subject)[i] == tag && Unused(Log(), OfTag(subject, i))
      modifies this
      ensures Valid() && Onward(old(Now()), refusals, Now(), more) && Since(old(Log()), Log(), One(OfTag(subject, i)))
      ensures if old(CappedAt(Now())) then CappedAt(Now()) else TagHandled(Log(), KnownOf(Now(), more), tag)
    {
      hide Collected, RefusalsOk, FetchedAs, Onward, Keeps, KnownOf, Truthful, IsSubject, Warranted, Wanted, Unused;
      more := refusals;
      OnwardSelf(Now(), refusals);
      var done := CapReached();
      if done {
        return;
      }
      TagWanted(Log(), subject, i);
      var r := Ask(tag, OfTag(subject, i));
      ghost var spent := Now();
      OnwardKeeps(old(Now()), spent, refusals);
      OnwardFacts(old(Now()), refusals, spent, refusals);
      if r.Found? {
        more := RecordTagged(subject, tag, r, more);
        OnwardFacts(spent, refusals, Now(), more);
        OnwardTrans(old(Now()), refusals, spent, refusals, Now(), more);
      }
      TagIs(spent.log, Log(), KnownOf(Now(), more), tag);
    }

    /** What is recorded of a manifest found at a tag, keeping the reason of a refusal. */
    method RecordTagged(subject: string, tag: string, r: Fetched, ghost refusals: map<string, Refusal>) returns (ghost more: map<string, Refusal>)
      requires Valid() && RefusalsOk(Log(), found, refusals)
      requires r.Found? && r == Obtained(Log(), |asked|) && Wanted(Log(), Query(|asked|, subject, tag, false))
      modifies this
      ensures Valid() && Onward(old(Now()), refusals, Now(), more) && Since(old(Log()), Log(), Children())
      ensures r.digest in KnownOf(Now(), more)
    {
      hide Collected, RefusalOk, RefusalsOk, Keeps, Truthful, Wanted, FetchedAs, Acceptable;
      ghost var why := Record(subject, tag, r.body, r.mediaType, r.digest, false);
      OnwardKeeps(old(Now()), Now(), refusals);
      more := refusals;
      if why.Some? {
        OnwardMore(old(Now()), Now(), refusals, r.digest, why.value);
        more := refusals[r.digest := why.value];
      }
    }

    /** addDescriptor: a listed referrer, unless it is known already. */
    method AddDescriptor(subject: string, desc: Descriptor, requireSubject: bool, ghost reason: Reason)
      returns (ghost why: Option<Refusal>)
      requires Valid() && Offered(Log(), subject, desc, requireSubject, reason) && Unused(Log(), reason)
      modifies this
      ensures Valid() && Keeps(old(Now()), Now()) && Since(old(Log()), Log(), One(reason))
      ensures formats.isDigest(desc.digest) && why.None? ==> desc.digest in found || desc.digest in skip
      ensures why.Some? ==> RefusalOk(Log(), found, desc.digest, why.value)
    {
      hide Collected, Justified, Truthful, FetchedAs, Acceptable, Wanted, Warranted, Unused, Offered;
      why := None;
      KeepsSelf();
      if !formats.isDigest(desc.digest) || desc.digest in skip || desc.digest in found {
        return;
      }
      var done := CapReached();
      if done {
        why := Some(Capped(found, |asked|));
        return;
      }
      OfferedWanted(Log(), subject, desc, requireSubject, reason);
      var r := Ask(desc.digest, reason);
      if !r.Found? {
        why := Some(Unserved(|asked|));
        return;
      }
      ghost var spent := Now();
      why := Record(subject, "", r.body, r.mediaType, r.digest, requireSubject);
      KeepsTrans(old(Now()), spent, Now());
    }

    lemma KeepsSelf()
      ensures Keeps(Now(), Now())
    {
    }

    lemma KeepsTrans(a: Snapshot, b: Snapshot, c: Snapshot)
      requires Keeps(a, b) && Keeps(b, c)
      ensures Keeps(a, c)
    {
    }

    /** addReferrer and addBuildkitAttestation, keeping the reason of a refusal. */
    method AddListed(subject: string, desc: Descriptor, required: bool, ghost reason: Reason, ghost refusals: map<string, Refusal>)
      returns (ghost more: map<string, Refusal>)
      requires Valid() && RefusalsOk(Log(), found, refusals)
      requires Offered(Log(), subject, desc, required, reason) && Unused(Log(), reason)
      modifies this
      ensures Valid() && Onward(old(Now()), refusals, Now(), more) && Since(old(Log()), Log(), One(reason))
      ensures formats.isDigest(desc.digest) ==> desc.digest in KnownOf(Now(), more)
    {
      hide Collected, RefusalsOk, RefusalOk, Keeps, Truthful, Offered, Unused;
      ghost var why := AddDescriptor(subject, desc, required, reason);
      OnwardKeeps(old(Now()), Now(), refusals);
      more := refusals;
      if why.Some? {
        OnwardMore(old(Now()), Now(), refusals, desc.digest, why.value);
        more := refusals[desc.digest := why.value];
      }
    }

    /** discoverSubject: the three tags of a subject, then whatever referrers the registry lists. */
    method DiscoverSubject(subject: string, visited: set<string>, ghost refusals: map<string, Refusal>)
      returns (now: set<string>, ghost more: map<string, Refusal>)
      requires Valid() && RefusalsOk(Log(), found, refusals) && AllHandled(visited, Now(), refusals)
      requires IsSubject(Log(), subject, |asked| + 1) && OnlyAbout(Log(), visited)
      modifies this
      ensures Valid() && Onward(old(Now()), refusals, Now(), more)
      ensures visited <= now && AllHandled(now, Now(), more) && OnlyAbout(Log(), now)
      ensures Undisturbed(world) && !CappedAt(Now()) ==> subject in now
    {
      hide Collected, RefusalsOk, Handled, KnownOf, Onward, CappedAt, Truthful, IsSubject, OnlyAbout, Unvisited, Since;
      now, more := visited, refusals;
      OnwardSelf(Now(), refusals);
      var done := CapReached();
      CappedIs(done);
      if subject in visited || done || !world.live(subject, attempts) {
        return;
      }
      now := now + {subject};
      NotYet(Log(), visited, subject);
      more := AddAll(subject, refusals);
      OnwardFacts(old(Now()), refusals, Now(), more);
      OnlyAboutMore(old(Log()), Log(), visited, subject);
      AllHandledNext(visited, subject, old(Now()), refusals, Now(), more);
    }

    /** The two loops of discoverSubject. */
    method AddAll(subject: string, ghost refusals: map<string, Refusal>) returns (ghost more: map<string, Refusal>)
      requires Valid() && RefusalsOk(Log(), found, refusals) && IsSubject(Log(), subject, |asked| + 1) && Unvisited(Log(), subject)
      modifies this
      ensures Valid() && Onward(old(Now()), refusals, Now(), more) && Since(old(Log()), Log(), About(subject))
      ensures CappedAt(Now()) || Handled(Log(), KnownOf(Now(), more), subject)
    {
      hide Collected, RefusalsOk, Handled, TagsHandled, ReferrersHandled, KnownOf, Onward, CappedAt, Truthful, IsSubject, Unvisited,
        Since, NoReferrers;
      more := AddTags(subject, refusals);
      ghost var mid, middle := Now(), more;
      OnwardFacts(old(Now()), refusals, mid, middle);
      SubjectStays(old(Log()), Log(), subject, old(|asked|) + 1, |asked| + 1);
      NoReferrerUsed(old(Log()), Log(), subject);
      more := AddReferrers(subject, more);
      OnwardFacts(mid, middle, Now(), more);
      AboutBoth(old(Log()), mid.log, Log(), subject);
      OnwardTrans(old(Now()), refusals, mid, middle, Now(), more);
      HandledBoth(mid, middle, Now(), more, subject);
    }

    /** The first loop of discoverSubject. */
    method AddTags(subject: string, ghost refusals: map<string, Refusal>) returns (ghost more: map<string, Refusal>)
      requires Valid() && RefusalsOk(Log(), found, refusals) && IsSubject(Log(), subject, |asked| + 1) && Unvisited(Log(), subject)
      modifies this
      ensures Valid() && Onward(old(Now()), refusals, Now(), more)
      ensures Since(old(Log()), Log(), Tags(subject, |formats.tags(subject)|))
      ensures CappedAt(Now()) || TagsHandled(Log(), KnownOf(Now(), more), formats.tags(subject), |formats.tags(subject)|)
    {
      hide Collected, RefusalsOk, TagHandled, KnownOf, Onward, CappedAt, Truthful, IsSubject, Unvisited, Since, Unused;
      more := refusals;
      OnwardSelf(Now(), refusals);
      NothingSince(Log(), Tags(subject, 0));
      var tags := formats.tags(subject);
      for i := 0 to |tags|
        invariant Valid() && Onward(old(Now()), refusals, Now(), more) && Since(old(Log()), Log(), Tags(subject, i))
        invariant CappedAt(Now()) || TagsHandled(Log(), KnownOf(Now(), more), tags, i)
      {
        ghost var mid, middle := Now(), more;
        OnwardFacts(old(Now()), refusals, mid, middle);
        SubjectStays(old(Log()), Log(), subject, old(|asked|) + 1, |asked| + 1);
        TagUnused(old(Log()), Log(), subject, i);
        more := AddByTag(subject, tags[i], i, more);
        OnwardTrans(old(Now()), refusals, mid, middle, Now(), more);
        OnwardFacts(mid, middle, Now(), more);
        TagsSince(old(Log()), mid.log, Log(), subject, i);
        TagsNext(mid, middle, Now(), more, tags, i);
      }
    }

    /** The last loop of discoverSubject. */
    method AddReferrers(subject: string, ghost refusals: map<string, Refusal>) returns (ghost more: map<string, Refusal>)
      requires Valid() && RefusalsOk(Log(), found, refusals) && IsSubject(Log(), subject, |asked| + 1) && NoReferrers(Log(), subject)
      modifies this
      ensures Valid() && Onward(old(Now()), refusals, Now(), more)
      ensures Since(old(Log()), Log(), Referrers(subject, |world.referrers(subject)|))
      ensures CappedAt(Now()) || ReferrersHandled(Log(), KnownOf(Now(), more), subject)
    {
      hide Collected, RefusalsOk, KnownOf, Onward, CappedAt, Truthful, IsSubject, Since, Unused, NoReferrers;
      more := refusals;
      OnwardSelf(Now(), refusals);
      var done := CapReached();
      CappedIs(done);
      NothingSince(Log(), Referrers(subject, 0));
      NothingSince(Log(), Referrers(subject, |world.referrers(subject)|));
      if done {
        return;
      }
      var referrers := world.referrers(subject);
      var i := 0;
      while i < |referrers| && !done
        invariant Valid() && Onward(old(Now()), refusals, Now(), more) && Since(old(Log()), Log(), Referrers(subject, i))
        invariant i <= |referrers| && (done ==> CappedAt(Now()))
        invariant forall k | 0 <= k < i && formats.isDigest(referrers[k].digest) :: referrers[k].digest in KnownOf(Now(), more)
        decreases |referrers| - i
      {
        ghost var mid, middle := Now(), more;
        OnwardFacts(old(Now()), refusals, mid, middle);
        SubjectStays(old(Log()), Log(), subject, old(|asked|) + 1, |asked| + 1);
        ReferrerUnused(old(Log()), Log(), subject, i);
        more := AddListed(subject, referrers[i], true, OfReferrer(subject, i), more);
        OnwardTrans(old(Now()), refusals, mid, middle, Now(), more);
        OnwardFacts(mid, middle, Now(), more);
        ReferrersSince(old(Log()), mid.log, Log(), subject, i);
        done := CapReached();
        CappedIs(done);
        i := i + 1;
      }
      ReferrersWider(old(Log()), Log(), subject, i);
    }

    /** discover: the image's subjects, then breadth first the artifacts of artifacts. The list it walks
        grows while it walks; it ends because a collection is bounded. When no bound is reached and the
        collect is not cancelled, nothing listed for any of them is missed. */
    method Discover(subjects: seq<string>, ghost before: map<string, Refusal>) returns (ghost refusals: map<string, Refusal>)
      requires Valid() && RefusalsOk(Log(), found, before) && OnlyAbout(Log(), {})
      requires forall x | x in subjects :: x == image.digest || (image.index != "" && x == image.index)
      modifies this
      ensures Valid() && Onward(old(Now()), before, Now(), refusals)
      ensures Undisturbed(world) ==> Done(subjects, Now(), refusals)
    {
      hide Collected, RefusalsOk, Undisturbed, Handled, AllHandled, CappedAt, KnownOf, Onward, Truthful, Obtains, OnlyAbout;
      var visited: set<string> := {};
      refusals := before;
      NoneHandled(Now(), refusals);
      OnwardSelf(Now(), before);
      for i := 0 to |subjects|
        invariant Valid() && Onward(old(Now()), before, Now(), refusals)
        invariant AllHandled(visited, Now(), refusals) && OnlyAbout(Log(), visited)
        invariant Undisturbed(world) && !CappedAt(Now()) ==> forall k | 0 <= k < i :: subjects[k] in visited
      {
        assert subjects[i] in subjects;
        visited, refusals := VisitNext(subjects[i], visited, old(Now()), before, refusals);
      }
      var next := 0;
      var done := CapReached();
      Bounded();
      CappedIs(done);
      while next < |order| && !done
        invariant Valid() && next <= |order| <= MAX_ARTIFACTS && (done ==> CappedAt(Now()))
        invariant Onward(old(Now()), before, Now(), refusals)
        invariant AllHandled(visited, Now(), refusals) && OnlyAbout(Log(), visited)
        invariant Undisturbed(world) && !CappedAt(Now()) ==> forall k | 0 <= k < |subjects| :: subjects[k] in visited
        invariant Undisturbed(world) && !CappedAt(Now()) ==> forall k | 0 <= k < next :: order[k] in visited
        decreases MAX_ARTIFACTS - next
      {
        InOrder(next);
        RecordedIsSubject(Log(), found, order[next]);
        visited, refusals := VisitNext(order[next], visited, old(Now()), before, refusals);
        next := next + 1;
        done := CapReached();
        CappedIs(done);
        Bounded();
      }
      AllVisited(visited, Now(), refusals);
    }

    lemma InOrder(i: nat)
      requires Valid() && i < |order|
      ensures order[i] in found
    {
      assert order[i] in order;
    }

    /** seedImageSubject: the image itself, if it names a subject. */
    method SeedImageSubject() returns (ghost refusals: map<string, Refusal>)
      requires Valid() && asked == []
      modifies this
      ensures Valid() && Onward(old(Now()), map[], Now(), refusals) && Since(old(Log()), Log(), Children())
      ensures NamesSubject(formats, image) ==> image.digest in found || image.digest in refusals
    {
      hide Collected, RefusalsOk, RefusalOk, Reaches, Truthful, Acceptable;
      refusals := map[];
      NoRefusals(Log(), found);
      OnwardSelf(Now(), refusals);
      if NamesSubject(formats, image) {
        var err, refusal := CollectGraph("", "", image.manifest, image.mediaType, image.digest, false);
        OnwardKeeps(old(Now()), Now(), map[]);
        if err.Some? {
          OnwardMore(old(Now()), Now(), map[], image.digest, refusal);
          refusals := map[image.digest := refusal];
        }
      }
    }

    /** The attestations an index lists. */
    method AddAttestations(ghost refusals: map<string, Refusal>) returns (ghost more: map<string, Refusal>)
      requires Valid() && RefusalsOk(Log(), found, refusals) && forall n | 0 <= n < |asked| :: asked[n].reason.OfChild?
      modifies this
      ensures Valid() && Onward(old(Now()), refusals, Now(), more) && OnlyAbout(Log(), {})
      ensures forall a | a in image.attestations && formats.isDigest(a.digest) :: a.digest in KnownOf(Now(), more)
    {
      hide Collected, RefusalsOk, KnownOf, Onward, CappedAt, Truthful, IsSubject, Since, Unused;
      more := refusals;
      OnwardSelf(Now(), refusals);
      NothingSince(Log(), Attestations(0));
      for i := 0 to |image.attestations|
        invariant Valid() && Onward(old(Now()), refusals, Now(), more) && Since(old(Log()), Log(), Attestations(i))
        invariant forall k | 0 <= k < i && formats.isDigest(image.attestations[k].digest) :: image.attestations[k].digest in KnownOf(Now(), more)
      {
        ghost var mid, middle := Now(), more;
        OnwardFacts(old(Now()), refusals, mid, middle);
        AttestationUnused(old(Log()), Log(), i);
        more := AddListed(image.digest, image.attestations[i], false, OfAttestation(i), more);
        OnwardTrans(old(Now()), refusals, mid, middle, Now(), more);
        OnwardFacts(mid, middle, Now(), more);
        AttestationsSince(old(Log()), mid.log, Log(), i);
      }
      OnwardFacts(old(Now()), refusals, Now(), more);
      NotAbout(old(Log()), Log(), |image.attestations|);
    }

    /** The image's own subject, its attestations, and the walk. */
    method CollectAll(subjects: seq<string>) returns (ghost refusals: map<string, Refusal>)
      requires Valid() && asked == []
      requires forall x | x in subjects :: x == image.digest || (image.index != "" && x == image.index)
      modifies this
      ensures Valid() && RefusalsOk(Log(), found, refusals) && skip == old(skip)
      ensures NamesSubject(formats, image) ==> image.digest in found || image.digest in refusals
      ensures forall a | a in image.attestations && formats.isDigest(a.digest) :: a.digest in KnownOf(Now(), refusals)
      ensures Undisturbed(world) ==> Done(subjects, Now(), refusals)
    {
      hide Collected, RefusalsOk, Undisturbed, Done, CappedAt, KnownOf, Onward, Truthful, NamesSubject, OnlyAbout;
      refusals := SeedImageSubject();
      ghost var seeded, own := Now(), refusals;
      OnwardFacts(old(Now()), map[], seeded, own);
      refusals := AddAttestations(refusals);
      ghost var listed, known := Now(), refusals;
      OnwardFacts(seeded, own, listed, known);
      refusals := Discover(subjects, refusals);
      OnwardFacts(listed, known, Now(), refusals);
    }

    /** One more subject, as seen from the start of the walk. */
    method VisitNext(subject: string, visited: set<string>, ghost start: Snapshot, ghost before: map<string, Refusal>,
                     ghost refusals: map<string, Refusal>) returns (now: set<string>, ghost more: map<string, Refusal>)
      requires Valid() && Onward(start, before, Now(), refusals)
      requires AllHandled(visited, Now(), refusals) && IsSubject(Log(), subject, |asked| + 1) && OnlyAbout(Log(), visited)
      modifies this
      ensures Valid() && Onward(start, before, Now(), more) && old(order) <= order
      ensures visited <= now && AllHandled(now, Now(), more) && OnlyAbout(Log(), now)
      ensures old(CappedAt(Now())) ==> CappedAt(Now())
      ensures Undisturbed(world) && !CappedAt(Now()) ==> subject in now
    {
      hide Collected, RefusalsOk, Undisturbed, AllHandled, CappedAt, KnownOf, Onward, Truthful, IsSubject, OnlyAbout;
      OnwardFacts(start, before, Now(), refusals);
      ghost var mid := Now();
      now, more := DiscoverSubject(subject, visited, refusals);
      OnwardTrans(start, before, mid, refusals, Now(), more);
      OnwardFacts(mid, refusals, Now(), more);
    }

    lemma CappedIs(done: bool)
      requires Valid() && (done <==> |found| >= MAX_ARTIFACTS || attempts >= MAX_FETCHES)
      ensures done <==> CappedAt(Now())
    {
    }

    lemma Bounded()
      requires Valid()
      ensures |found| == |order| <= MAX_ARTIFACTS
    {
    }

    /** The list names every record. */
    lemma ListsAll(list: seq<Artifact>)
      requires Valid() && |list| == |order| && forall i | 0 <= i < |list| :: order[i] in found && list[i] == found[order[i]]
      ensures ByDigest(list) == found && Truthful(Log(), ByDigest(list))
      ensures forall i | 0 <= i < |list| :: list[i].digest in order
    {
      hide Truthful, Covered, Complete;
      forall i | 0 <= i < |list| ensures list[i].digest == order[i] {
        assert found[order[i]].digest == order[i];
      }
      assert forall i, k | 0 <= i < k < |list| :: list[i].digest != list[k].digest;
      ByDigestIs(list);
      forall d ensures d in found <==> d in ByDigest(list) {
        assert d in found <==> d in order;
      }
    }

    /** list: the records in discovery order. */
    method List() returns (out: seq<Artifact>)
      requires Valid()
      ensures ListOk(formats, out, files) && |out| == |order|
      ensures forall i | 0 <= i < |out| :: order[i] in found && out[i] == found[order[i]]
    {
      hide Truthful;
      out := [];
      for i := 0 to |order|
        invariant |out| == i && forall k | 0 <= k < i :: out[k] == found[order[k]]
      {
        assert order[i] in order;
        out := out + [found[order[i]]];
      }
      ListedOk(formats, found, order, files, out);
    }
  }

  /** What one image's bundle carries: bounded, each digest once, every child of an index before it
      with the size and media type the index names, every manifest and blob among the files. */
  ghost predicate ListOk(f: Formats, list: seq<Artifact>, files: seq<ManifestFile>)
  {
    && |list| <= MAX_ARTIFACTS
    && (forall i, k | 0 <= i < k < |list| :: list[i].digest != list[k].digest)
    && (forall i, c | 0 <= i < |list| && c in list[i].manifests ::
          exists k :: 0 <= k < i && list[k].digest == c.digest && list[k].size == c.size && list[k].mediaType == c.mediaType)
    && (forall i | 0 <= i < |list| :: Covered(f, list[i], files))
  }

  lemma ListedOk(f: Formats, found: map<string, Artifact>, order: seq<string>, files: seq<ManifestFile>, list: seq<Artifact>)
    requires Collected(f, found, order, files)
    requires |list| == |order| && forall k | 0 <= k < |list| :: order[k] in found && list[k] == found[order[k]]
    ensures ListOk(f, list, files)
  {
    hide Covered;
    forall i, c | 0 <= i < |list| && c in list[i].manifests
      ensures exists k :: 0 <= k < i && list[k].digest == c.digest && list[k].size == c.size && list[k].mediaType == c.mediaType
    {
      assert Complete(map[], found, order[..i], found[order[i]]);
      var k :| 0 <= k < i && order[..i][k] == c.digest;
      assert list[k] == found[c.digest];
    }
  }

  /** The records of a list. */
  function ByDigest(list: seq<Artifact>): map<string, Artifact>
  {
    if list == [] then map[]
    else
      var last := list[|list| - 1];
      ByDigest(list[..|list| - 1])[last.digest := last]
  }

  lemma {:induction false} ByDigestIs(list: seq<Artifact>)
    requires forall i, k | 0 <= i < k < |list| :: list[i].digest != list[k].digest
    ensures forall d | d in ByDigest(list) :: exists i :: 0 <= i < |list| && list[i].digest == d
    ensures forall i | 0 <= i < |list| :: list[i].digest in ByDigest(list) && ByDigest(list)[list[i].digest] == list[i]
  {
    if list != [] {
      var init := list[..|list| - 1];
      ByDigestIs(init);
      forall d | d in ByDigest(init) ensures exists i :: 0 <= i < |list| && list[i].digest == d {
        var i :| 0 <= i < |init| && init[i].digest == d;
        assert list[i].digest == d;
      }
      forall i | 0 <= i < |list| ensures list[i].digest in ByDigest(list) && ByDigest(list)[list[i].digest] == list[i] {
        if i < |init| {
          assert init[i] == list[i];
        }
      }
    }
  }

  predicate NamesSubject(f: Formats, image: Image)
  {
    f.parse(image.manifest).Some? && f.parse(image.manifest).value.subject.Some?
  }

  lemma NoRefusals(h: History, found: map<string, Artifact>)
    ensures RefusalsOk(h, found, map[])
  {
  }

  /** What a collection accounts for: what its list holds, the image itself, and what was refused. */
  ghost function Accounted(list: seq<Artifact>, image: Image, refusals: map<string, Refusal>): set<string>
  {
    ByDigest(list).Keys + {image.digest, image.index} + refusals.Keys
  }

  /** Every listed artifact says what a document that a request gave says, and its files are listed: the
      document's own, and, if it is not an index, those of its config and its layers. */
  ghost predicate AllDescribed(h: History, list: seq<Artifact>, files: seq<ManifestFile>)
  {
    forall i | 0 <= i < |list| :: Described(h, list[i], files)
  }

  ghost predicate Described(h: History, a: Artifact, files: seq<ManifestFile>)
  {
    exists n: nat, subject :: DescribedBy(h, a, n, subject, files)
  }

  ghost predicate DescribedBy(h: History, a: Artifact, n: nat, subject: string, files: seq<ManifestFile>)
  {
    && n <= |h.asked| && Obtained(h, n).Found?
    && var r := Obtained(h, n);
      && Describes(h.formats, a, subject, a.tag, r.body, r.mediaType, r.digest) && HasFile(files, h.formats.path(r.digest))
      && var m := h.formats.parse(r.body).value;
        && (m.subject.Some? ==> a.subject == m.subject.value)
        && (!h.formats.isIndexType(r.mediaType) ==>
              && (m.config.Some? ==> HasFile(files, h.formats.path(m.config.value.digest)))
              && forall b | b in m.layers :: HasFile(files, h.formats.path(b.digest)))
  }

  lemma ListDescribed(h: History, list: seq<Artifact>, files: seq<ManifestFile>)
    requires Truthful(h, ByDigest(list)) && ListOk(h.formats, list, files)
    ensures AllDescribed(h, list, files)
  {
    hide Recorded, Warranted, Covered, Described, ByDigest;
    ByDigestIs(list);
    forall i | 0 <= i < |list| ensures Described(h, list[i], files) {
      var a := list[i];
      assert Recorded(h, ByDigest(list)[a.digest], a.digest) && Covered(h.formats, a, files);
      RecordedDescribed(h, a, files);
    }
  }

  lemma RecordedDescribed(h: History, a: Artifact, files: seq<ManifestFile>)
    requires Recorded(h, a, a.digest) && Covered(h.formats, a, files)
    ensures Described(h, a, files)
  {
    hide Queried, AsChild, TagSeen, Obtains, FromDoc, Covered, DescribedBy;
    var q :| (Queried(h, q) || AsChild(h, q, a.digest)) && Obtains(h, q.at, a.digest)
      && FromDoc(h, a, q.at, q.subject, a.tag, q.required);
    DocDescribed(h, a, q.at, q.subject, q.required, files);
  }

  lemma DocDescribed(h: History, a: Artifact, n: nat, subject: string, required: bool, files: seq<ManifestFile>)
    requires FromDoc(h, a, n, subject, a.tag, required) && Covered(h.formats, a, files)
    ensures DescribedBy(h, a, n, subject, files)
  {
    hide FetchedAs, HasFile, ContentOk;
    var r := Obtained(h, n);
    RecordDescribes(h.formats, subject, a.tag, r.body, r.mediaType, r.digest);
    ContentsAre(h.formats.parse(r.body).value);
  }

  /** collectImageArtifacts: seeds the image's own subject, the attestations its index lists, then
      discovers. The list is consistent, every record is that of a document the registry gave, at most 256
      manifests were asked for and none without need; and unless a bound was reached or the collect was
      cancelled, the image itself if it names a subject, every valid attestation, and every valid referrer
      and every tag of the image, its index or an artifact of the list is accounted for: in the list, one
      of the two, or refused on evidence that these requests and this list give. */
  method CollectImageArtifacts(f: Formats, w: World, image: Image, staged: set<string>)
    returns (list: seq<Artifact>, files: seq<ManifestFile>, ghost asked: seq<Request>, ghost refusals: map<string, Refusal>)
    ensures ListOk(f, list, files) && |list| <= 64 && |asked| <= 256
    ensures var h := History(f, w, image, asked);
      && Truthful(h, ByDigest(list)) && AllDescribed(h, list, files) && RefusalsOk(h, ByDigest(list), refusals)
      && (Undisturbed(w) && |list| < 64 && |asked| < 256 ==> AllOf(h, list, refusals))
    ensures forall a | a in image.attestations && f.isDigest(a.digest) :: a.digest in Accounted(list, image, refusals)
    ensures NamesSubject(f, image) ==> image.digest in ByDigest(list) || image.digest in refusals
  {
    hide Collected, ListOk, RefusalsOk, AllOf, Done, Undisturbed, Accounted, KnownOf, Truthful, NamesSubject, ByDigest;
    var col := new Collector(f, w, image, staged);
    var subjects := if image.index != "" then [image.index, image.digest] else [image.digest];
    refusals := col.CollectAll(subjects);
    list := col.List();
    files, asked := col.files, col.asked;
    col.ListsAll(list);
    ListDescribed(col.Log(), list, files);
    col.Bounded();
    AllAccounted(col.Now(), list, image, refusals);
    if Undisturbed(w) {
      AllListed(col.Now(), list, subjects, refusals);
    }
  }

  lemma AllAccounted(now: Snapshot, list: seq<Artifact>, image: Image, refusals: map<string, Refusal>)
    requires now.skip <= {image.digest, image.index} && now.found == ByDigest(list)
    ensures KnownOf(now, refusals) <= Accounted(list, image, refusals)
  {
    hide ByDigest;
  }

  lemma AllListed(now: Snapshot, list: seq<Artifact>, subjects: seq<string>, refusals: map<string, Refusal>)
    requires |list| == |now.order| == |now.found| && Done(subjects, now, refusals)
    requires forall i | 0 <= i < |list| :: list[i].digest in now.order
    requires subjects == if now.log.image.index != "" then [now.log.image.index, now.log.image.digest] else [now.log.image.digest]
    requires KnownOf(now, refusals) <= Accounted(list, now.log.image, refusals)
    ensures |list| < MAX_ARTIFACTS && |now.log.asked| < MAX_FETCHES ==> AllOf(now.log, list, refusals)
  {
    hide Handled, Accounted, KnownOf;
    var all := Accounted(list, now.log.image, refusals);
    if |list| < MAX_ARTIFACTS && |now.log.asked| < MAX_FETCHES {
      forall x | x in subjects || x in now.order ensures Handled(now.log, all, x) {
        HandledStays(now.log, now.log, KnownOf(now, refusals), all, x);
      }
      assert now.log.image.digest in subjects && (now.log.image.index != "" ==> now.log.image.index in subjects);
    }
  }

  /** Everything that the registry lists for the image, its index or an artifact of the list, or that one
      of their tags points to, is accounted for. */
  ghost predicate AllOf(h: History, list: seq<Artifact>, refusals: map<string, Refusal>)
  {
    var all := Accounted(list, h.image, refusals);
    && Handled(h, all, h.image.digest) && (h.image.index != "" ==> Handled(h, all, h.image.index))
    && forall i | 0 <= i < |list| :: Handled(h, all, list[i].digest)
  }

  /** A graph that staged more, and touched nothing of the collection but its attempts. */
  twostate predicate Grown(g: RequiredGraph)
    reads g, g.collector
  {
    && g.Valid() && old(g.order) <= g.order
    && g.collector.found == old(g.collector.found) && Extends(old(g.collector.Log()), g.collector.Log())
    && (forall d | d in old(g.pending) :: d in g.pending && g.pending[d] == old(g.pending)[d])
  }

  /** containerArtifactGraph: what a manifest requires, staged before any of it is committed. */
  class RequiredGraph {
    const collector: Collector
    ghost const query: Query
    ghost const root: string
    var staged: set<string>
    var pending: map<string, Artifact>
    var visiting: set<string>
    var order: seq<string>
    var files: seq<ManifestFile>

    constructor (collector: Collector, ghost query: Query, ghost root: string)
      requires collector.Valid() && Queried(collector.Log(), query) && Obtains(collector.Log(), query.at, root)
      ensures Valid() && this.collector == collector && pending == map[] && visiting == {} && staged == collector.staged
      ensures order == [] && files == [] && this.query == query && this.root == root
    {
      hide Queried, Truthful, Grounded, Covered, Complete;
      NothingGrounded(collector.Log(), query, root);
      this.collector, this.query, this.root, staged := collector, query, root, collector.staged;
      pending, visiting, order, files := map[], {}, [], [];
    }

    /** What is staged is complete once it is listed; what is being visited is not listed yet. */
    ghost predicate Valid()
      reads this, collector
    {
      && collector.Valid() && collector.staged <= staged
      && Staged(collector.formats, collector.found, pending, visiting, order, files)
      && Grounded(collector.Log(), query, root, pending)
    }

    /** downloadContainerBlob: already staged, already forwarded, skipped in a dry run, downloaded, or failed. */
    method DownloadBlob(desc: BlobRef) returns (r: Outcome<ManifestFile>)
      modifies this`staged
      ensures old(staged) <= staged <= old(staged) + {collector.formats.path(desc.digest)}
      ensures r.Ok? ==> BlobOk(collector.formats, desc) && r.value.size == desc.size
      ensures r.Ok? ==> r.value.path == collector.formats.path(desc.digest)
      ensures r.Err? ==> if r.failure == Invalid then !BlobOk(collector.formats, desc)
        else BlobFault(collector.formats, collector.world, r.failure, desc, collector.attempts)
    {
      if !BlobOk(collector.formats, desc) {
        return Err(Invalid);
      }
      var path := collector.formats.path(desc.digest);
      if path in staged {
        return Ok(ManifestFile(path, desc.size, false));
      }
      match collector.world.blob(path, collector.attempts)
      case Forwarded => r := Ok(ManifestFile(path, desc.size, true));
      case DryRun => r := Ok(ManifestFile(path, desc.size, false));
      case Unavailable => r := Err(Fetch);
      case Corrupt => r := Err(Storage);
      case Downloaded =>
        staged := staged + {path};
        r := Ok(ManifestFile(path, desc.size, false));
    }

    /** downloadArtifactBlobs: one file a path, in the order the blobs are first named. */
    method DownloadBlobs(descs: seq<BlobRef>) returns (r: Outcome<seq<ManifestFile>>)
      modifies this`staged
      ensures old(staged) <= staged
      ensures r.Ok? ==> forall b | b in descs ::
        BlobOk(collector.formats, b) && HasFile(r.value, collector.formats.path(b.digest))
      ensures r.Ok? ==> forall i, k | 0 <= i < k < |r.value| :: r.value[i].path != r.value[k].path
      ensures r.Err? ==> if r.failure == Invalid then exists b :: b in descs && !BlobOk(collector.formats, b)
        else exists b :: b in descs && BlobFault(collector.formats, collector.world, r.failure, b, collector.attempts)
    {
      var out: seq<ManifestFile>, paths: set<string> := [], {};
      for i := 0 to |descs|
        invariant old(staged) <= staged
        invariant paths == set k | 0 <= k < |out| :: out[k].path
        invariant forall b | b in descs[..i] :: BlobOk(collector.formats, b) && collector.formats.path(b.digest) in paths
        invariant forall k, l | 0 <= k < l < |out| :: out[k].path != out[l].path
      {
        var one := DownloadBlob(descs[i]);
        if one.Err? {
          return Err(one.failure);
        }
        if one.value.path !in paths {
          ghost var was := out;
          paths := paths + {one.value.path};
          out := out + [one.value];
          assert forall k | 0 <= k < |was| :: out[k] == was[k];
          assert out[|was|] == one.value;
        }
      }
      assert descs[..|descs|] == descs;
      r := Ok(out);
    }

    /** stageArtifactContent. */
    method StageContent(m: Manifest, mediaType: string) returns (r: Outcome<seq<ManifestFile>>)
      modifies this`staged
      ensures old(staged) <= staged
      ensures r.Ok? ==> ContentOk(collector.formats, m, mediaType)
      ensures r.Ok? && !collector.formats.isIndexType(mediaType) ==>
        forall b | b in Contents(m) :: HasFile(r.value, collector.formats.path(b.digest))
      ensures r.Err? ==> if r.failure == Invalid then !ContentOk(collector.formats, m, mediaType)
        else (!collector.formats.isIndexType(mediaType) &&
              exists b :: b in Contents(m) && BlobFault(collector.formats, collector.world, r.failure, b, collector.attempts))
    {
      if !collector.formats.isIndexType(mediaType) {
        r := DownloadBlobs(Contents(m));
        return;
      }
      for i := 0 to |m.manifests|
        invariant forall c | c in m.manifests[..i] :: ChildOk(collector.formats, c)
        invariant staged == old(staged)
      {
        if !ChildOk(collector.formats, m.manifests[i]) {
          return Err(Invalid);
        }
      }
      assert m.manifests[..|m.manifests|] == m.manifests;
      r := Ok([]);
    }

    /** stageArtifact: the record of one manifest and its files, the manifest's own file last. It fails
        exactly when the manifest is not acceptable, or at a blob it names, or at its own file. */
    method StageArtifact(subject: string, tag: string, body: Data, mediaType: string, digest: string, requireSubject: bool)
      returns (r: Outcome<(Artifact, seq<ManifestFile>)>)
      modifies this`staged
      ensures old(staged) <= staged
      ensures r.Err? ==> if r.failure == Invalid then !Acceptable(collector.formats, subject, body, mediaType, requireSubject)
        else DocFault(collector.formats, collector.world, r.failure, Found(body, mediaType, digest), collector.attempts)
      ensures r.Ok? ==> Acceptable(collector.formats, subject, body, mediaType, requireSubject)
      ensures r.Ok? ==> Covered(collector.formats, r.value.0, r.value.1)
      ensures r.Ok? ==> Describes(collector.formats, r.value.0, subject, tag, body, mediaType, digest)
      ensures r.Ok? && !collector.formats.isIndexType(mediaType) ==>
        var m := collector.formats.parse(body).value;
        && (m.config.Some? ==> HasFile(r.value.1, collector.formats.path(m.config.value.digest)))
        && forall b | b in m.layers :: HasFile(r.value.1, collector.formats.path(b.digest))
      ensures r.Ok? ==> HasFile(r.value.1, collector.formats.path(digest))
      ensures r.Ok? ==>
        r.value.0 == RecordOf(collector.formats, subject, tag, body, mediaType, digest, collector.formats.parse(body).value)
    {
      var f := collector.formats;
      if !DocumentType(f, mediaType) {
        return Err(Invalid);
      }
      var m := f.parse(body);
      if m.None? || !SubjectOk(f, subject, m.value, requireSubject) {
        return Err(Invalid);
      }
      var content := StageContent(m.value, mediaType);
      if content.Err? {
        return Err(content.failure);
      }
      var path := f.path(digest);
      if path !in staged {
        if !collector.world.store(path, collector.attempts) {
          return Err(Storage);
        }
        staged := staged + {path};
      }
      var files := content.value + [ManifestFile(path, |body|, false)];
      assert files[|content.value|].path == path;
      forall b | HasFile(content.value, b) ensures HasFile(files, b) {
        FileBefore(content.value, [ManifestFile(path, |body|, false)], b);
      }
      RecordDescribes(f, subject, tag, body, mediaType, digest);
      r := Ok((RecordOf(f, subject, tag, body, mediaType, digest, m.value), files));
    }

    /** Staging failed for the sake of documents below the root. */
    ghost predicate Explained(why: Failure)
      reads this, collector
    {
      Below(collector.Log(), root, why, collector.found, pending)
    }

    /** stage: the manifest just obtained, then its children depth first. trail is the manifests being
        visited, from the root. */
    method Stage(subject: string, tag: string, body: Data, mediaType: string, digest: string, requireSubject: bool,
                 depth: nat, ghost trail: seq<string>) returns (err: Option<Failure>)
      requires Valid() && Leads(pending, visiting, trail, root, digest) && depth == |trail| <= MAX_DEPTH + 1
      requires Obtained(collector.Log(), |collector.asked|) == Found(body, mediaType, digest)
      requires Arrived(collector.Log(), query, root, digest, subject, tag, requireSubject)
      modifies this, collector`attempts, collector`capped, collector`asked
      ensures Grown(this)
      ensures err.Some? && !Explained(err.value) ==>
        && pending == old(pending) && collector.asked == old(collector.asked)
        && OwnFault(collector.Log(), err.value, subject, requireSubject)
      ensures Since(old(collector.Log()), collector.Log(), ChildrenAfter(old(|collector.asked|)))
      ensures err.None? ==> visiting == old(visiting) && (digest in order || digest in collector.found)
      ensures err.None? && digest !in old(pending) && digest !in collector.found ==>
        Acceptable(collector.formats, subject, body, mediaType, requireSubject) && collector.formats.parse(body).Some? &&
        digest in pending &&
        pending[digest] == RecordOf(collector.formats, subject, tag, body, mediaType, digest, collector.formats.parse(body).value)
      decreases MAX_DEPTH + 1 - depth, 1
    {
      hide Staged, Collected, Complete, Covered, HasParent, HasCycle, IsChild, IsPath, Leads, Acceptable, Below, Grounded,
        FetchedAs, Truthful, Arrived, Placed, Since;
      Facts();
      NothingSince(collector.Log(), ChildrenAfter(|collector.asked|));
      if !collector.world.live(digest, collector.attempts) {
        return Some(Cancelled);
      }
      if digest in visiting {
        CycleClosed(pending, visiting, trail, root, digest);
        BecauseCycle(collector.Log(), root, collector.found, pending);
        return Some(Cycle);
      }
      if digest in pending || digest in collector.found {
        return None;
      }
      if depth > MAX_DEPTH || |pending| + |collector.found| >= MAX_ARTIFACTS {
        collector.capped := true;
        if depth > MAX_DEPTH {
          BecauseDeep(collector.Log(), root, collector.found, pending, visiting, trail, digest);
        } else {
          BecauseFull(collector.Log(), root, collector.found, pending);
        }
        return Some(Limit);
      }
      var staging := StageArtifact(subject, tag, body, mediaType, digest, requireSubject);
      if staging.Err? {
        return Some(staging.failure);
      }
      var (art, more) := staging.value;
      AcceptedRecord(collector.Log(), query, root, subject, tag, body, mediaType, digest, requireSubject);
      DocChildren(collector.Log(), subject, tag, body, mediaType, digest, requireSubject);
      LeadsParent(pending, visiting, trail, root, digest);
      err := StageAccepted(digest, art, more, depth, trail);
    }

    /** The part of stage that follows an accepted manifest: its children, between entering and leaving it. */
    method StageAccepted(digest: string, art: Artifact, more: seq<ManifestFile>, depth: nat, ghost trail: seq<string>)
      returns (err: Option<Failure>)
      requires Valid() && Leads(pending, visiting, trail, root, digest) && depth == |trail| <= MAX_DEPTH
      requires digest == root || HasParent(pending, digest)
      requires digest !in pending && digest !in collector.found && |pending| + |collector.found| < MAX_ARTIFACTS
      requires art.digest == digest && Covered(collector.formats, art, more) && Placed(collector.Log(), query, root, art, digest)
      requires art.manifests == ChildrenOf(collector.Log(), |collector.asked|)
      requires forall c | c in art.manifests :: ChildOk(collector.formats, c)
      modifies this, collector`attempts, collector`capped, collector`asked
      ensures Grown(this) && (err.Some? ==> Explained(err.value))
      ensures Since(old(collector.Log()), collector.Log(), ChildrenAfter(old(|collector.asked|)))
      ensures err.None? ==> visiting == old(visiting) && digest in order && digest in pending && pending[digest] == art
      decreases MAX_DEPTH + 1 - depth, 0, 1
    {
      hide Staged, Collected, Complete, Covered, HasParent, IsChild, IsPath, Leads, Trail, Below, Grounded, Truthful, Placed, Since, ChildrenOf;
      Facts();
      TrailGrows(pending, visiting, trail, root, digest, art);
      Enter(digest, art, more);
      err := StageChildren(digest, depth, trail + [digest]);
      if err.None? {
        Facts();
        Leave(digest);
        Facts();
      }
    }

    /** The loop of stage over the children of the manifest just entered. */
    method StageChildren(digest: string, depth: nat, ghost trail: seq<string>) returns (err: Option<Failure>)
      requires Valid() && digest in pending && depth <= MAX_DEPTH && |trail| == depth + 1
      requires Trail(pending, visiting, trail, root) && trail[|trail| - 1] == digest
      requires pending[digest].manifests == ChildrenOf(collector.Log(), |collector.asked|)
      requires forall c | c in pending[digest].manifests :: ChildOk(collector.formats, c)
      modifies this, collector`attempts, collector`capped, collector`asked
      ensures Grown(this) && (err.Some? ==> Explained(err.value))
      ensures Since(old(collector.Log()), collector.Log(), ChildrenAfter(old(|collector.asked|)))
      ensures err.None? ==> visiting == old(visiting) && Complete(collector.found, pending, order, pending[digest])
      decreases MAX_DEPTH + 1 - depth, 0, 0
    {
      hide Staged, Collected, Complete, Covered, HasParent, IsChild, IsPath, Leads, Trail, Below, Grounded, Truthful, Since, Unused, ChildrenOf;
      var art := pending[digest];
      ghost var h := collector.Log();
      NothingSince(h, ChildrenFrom(|h.asked|, 0));
      assert art.manifests[..0] == [];
      NothingRequired(collector.found, pending, order, art.(manifests := art.manifests[..0]));
      for i := 0 to |art.manifests|
        invariant Grown(this) && visiting == old(visiting) && Since(h, collector.Log(), ChildrenFrom(|h.asked|, i))
        invariant pending[digest] == art && Trail(pending, visiting, trail, root)
        invariant Complete(collector.found, pending, order, art.(manifests := art.manifests[..i]))
      {
        TrailLeads(pending, visiting, trail, root, digest, i);
        ghost var was, listed, mid := pending, order, collector.Log();
        ChildMayBeAsked(h, mid, collector.found, i);
        err := StageChild(art.manifests[i], depth + 1, trail, digest, |h.asked|, i);
        NextChild(h, mid, collector.Log(), |h.asked|, i);
        ChildrenOnly(h, collector.Log(), |h.asked|, i + 1);
        if err.Some? {
          return;
        }
        TrailStays(was, visiting, trail, root, pending);
        CompleteNext(collector.found, was, listed, pending, order, art, i);
      }
      assert art.manifests[..|art.manifests|] == art.manifests;
      ChildrenOnly(h, collector.Log(), |h.asked|, |art.manifests|);
      err := None;
    }

    /** What is known of a graph without looking into it. */
    lemma Facts()
      requires Valid()
      ensures pending.Keys !! collector.found.Keys && visiting <= pending.Keys
      ensures Queried(collector.Log(), query) && Obtains(collector.Log(), query.at, root)
      ensures forall d :: d in order <==> d in pending && d !in visiting
    {
      hide Collected, Complete, Covered, Truthful, Placed, Rooted, Queried;
    }

    lemma Committed()
      requires Valid() && visiting == {}
      ensures Collected(collector.formats, collector.found + pending, collector.order + order, collector.files + files)
      ensures Truthful(collector.Log(), collector.found + pending)
    {
      hide Staged, Collected, Truthful, Grounded;
      CommitKeeps(collector.formats, collector.found, pending, collector.order, order, collector.files, files);
      CommittedTrue(collector.Log(), query, root, collector.found, pending);
    }

    lemma Reached()
      requires Valid()
      ensures forall d | d in pending :: Reaches(collector.found + pending, root, d)
    {
      hide Complete, Covered, Rooted, Truthful, Placed, Collected;
      EverythingReached(collector.found, pending, root);
    }

    /** A failure and what was staged by then are the evidence for a refusal. */
    lemma Refused(why: Failure)
      requires Valid()
      requires Explained(why) || (query.at == |collector.asked| && pending == map[]
                                  && OwnFault(collector.Log(), why, query.subject, query.required))
      ensures RefusalOk(collector.Log(), collector.found, root, Rejected(why, collector.found, pending, |collector.asked|, query))
    {
      hide Below, OwnFault, Staged, Grounded, Collected, Truthful;
      Facts();
      RefusedNow(collector.Log(), collector.found, root, why, pending, query);
    }

    /** A manifest's record is staged and its children are to be visited. */
    method Enter(digest: string, art: Artifact, more: seq<ManifestFile>)
      requires Valid() && digest !in pending && digest !in collector.found && |pending| + |collector.found| < MAX_ARTIFACTS
      requires art.digest == digest && Covered(collector.formats, art, more) && Placed(collector.Log(), query, root, art, digest)
      requires digest == root || HasParent(pending, digest)
      modifies this`pending, this`visiting, this`files
      ensures Valid()
      ensures pending == old(pending)[digest := art] && visiting == old(visiting) + {digest}
    {
      hide Staged, Collected, Complete, Covered, HasParent, Truthful, Grounded, Placed;
      EnterKeeps(collector.formats, collector.found, pending, visiting, order, files, digest, art, more);
      GroundedEnter(collector.Log(), query, root, pending, digest, art);
      pending, visiting := pending[digest := art], visiting + {digest};
      files := files + more;
    }

    /** All its children are complete: it is listed after them. */
    method Leave(digest: string)
      requires Valid() && digest in visiting && digest in pending && Complete(collector.found, pending, order, pending[digest])
      modifies this`visiting, this`order
      ensures Valid() && visiting == old(visiting) - {digest} && order == old(order) + [digest]
    {
      hide Staged, Collected, Complete, Truthful, Grounded;
      LeaveKeeps(collector.formats, collector.found, pending, visiting, order, files, digest);
      visiting := visiting - {digest};
      order := order + [digest];
    }

    /** stageChild: a child already there must match its descriptor; any other is fetched and staged. */
    method StageChild(child: Descriptor, depth: nat, ghost trail: seq<string>, ghost parent: string, ghost at: nat, ghost i: nat)
      returns (err: Option<Failure>)
      requires Valid() && Leads(pending, visiting, trail, root, child.digest) && depth == |trail| <= MAX_DEPTH + 1 && trail != []
      requires parent in pending && child in pending[parent].manifests && ChildOk(collector.formats, child)
      requires at <= |collector.asked| && i < |ChildrenOf(collector.Log(), at)| && ChildrenOf(collector.Log(), at)[i] == child
      requires Unused(collector.Log(), OfChild(at, i))
      modifies this, collector`attempts, collector`capped, collector`asked
      ensures Grown(this) && (err.Some? ==> Explained(err.value)) && Since(old(collector.Log()), collector.Log(), ChildOnly(at, i))
      ensures err.None? ==> visiting == old(visiting) && Complete(collector.found, pending, order, Alone(child))
      decreases MAX_DEPTH + 1 - depth, 2
    {
      hide Staged, Collected, Complete, Covered, HasParent, HasCycle, IsPath, Leads, Below, Grounded, Truthful, ChildOk, Since, Unused,
        ChildrenOf;
      Facts();
      NothingSince(collector.Log(), ChildOnly(at, i));
      if child.digest in visiting {
        CycleClosed(pending, visiting, trail, root, child.digest);
        BecauseCycle(collector.Log(), root, collector.found, pending);
        return Some(Cycle);
      }
      if child.digest in pending || child.digest in collector.found {
        var known := if child.digest in pending then pending[child.digest] else collector.found[child.digest];
        if !Matches(known, child) {
          BecauseWrong(collector.Log(), root, collector.found, pending, parent, child);
          return Some(Mismatch);
        }
        AloneComplete(collector.found, pending, order, child);
        return None;
      }
      if depth > MAX_DEPTH {
        BecauseDeep(collector.Log(), root, collector.found, pending, visiting, trail, child.digest);
        collector.capped := true;
        return Some(Limit);
      }
      var capped := collector.CapReached();
      if capped || |pending| + |collector.found| >= MAX_ARTIFACTS {
        collector.capped := true;
        LimitHere(parent, child);
        return Some(Limit);
      }
      err := FetchChild(child, depth, trail, parent, at, i);
    }

    lemma LimitHere(parent: string, child: Descriptor)
      requires Valid() && parent in pending && child in pending[parent].manifests
      requires child.digest !in pending && child.digest !in collector.found
      requires |collector.found| >= MAX_ARTIFACTS || collector.attempts >= MAX_FETCHES || |pending| + |collector.found| >= MAX_ARTIFACTS
      ensures Explained(Limit)
    {
      hide Staged, Collected, Below, Grounded, Truthful;
      if collector.attempts >= MAX_FETCHES {
        BecauseSpent(collector.Log(), root, collector.found, pending, parent, child);
      } else {
        BecauseFull(collector.Log(), root, collector.found, pending);
      }
    }

    /** The part of stageChild that asks for a child and stages it. */
    method FetchChild(child: Descriptor, depth: nat, ghost trail: seq<string>, ghost parent: string, ghost at: nat, ghost i: nat)
      returns (err: Option<Failure>)
      requires Valid() && Leads(pending, visiting, trail, root, child.digest) && depth == |trail| <= MAX_DEPTH && trail != []
      requires parent in pending && child in pending[parent].manifests && ChildOk(collector.formats, child)
      requires at <= |collector.asked| && i < |ChildrenOf(collector.Log(), at)| && ChildrenOf(collector.Log(), at)[i] == child
      requires Unused(collector.Log(), OfChild(at, i))
      requires child.digest !in pending && child.digest !in collector.found && collector.attempts < MAX_FETCHES
      modifies this, collector`attempts, collector`capped, collector`asked
      ensures Grown(this) && (err.Some? ==> Explained(err.value)) && Since(old(collector.Log()), collector.Log(), ChildOnly(at, i))
      ensures err.None? ==> visiting == old(visiting) && Complete(collector.found, pending, order, Alone(child))
      decreases MAX_DEPTH + 1 - depth, 2, 0
    {
      hide Staged, Collected, Complete, Covered, HasParent, HasCycle, IsPath, Leads, Below, Grounded, Truthful, FetchedAs, Acceptable,
        Warranted, OwnFault, Arrived, Since, Unused, ChildrenOf;
      Facts();
      ghost var h := collector.Log();
      var r := AskFor(child, trail, parent, at, i);
      ghost var k := collector.Log();
      NothingSince(k, ChildrenAfter(|k.asked|));
      ThenStaged(h, k, k, at, i);
      if !r.Found? {
        BecauseChild(collector.Log(), root, Fetch, collector.found, pending, parent, child);
        return Some(Fetch);
      }
      if |r.body| != child.size || r.mediaType != child.mediaType {
        BecauseChild(collector.Log(), root, Mismatch, collector.found, pending, parent, child);
        return Some(Mismatch);
      }
      err := Stage("", "", r.body, r.mediaType, r.digest, false, depth, trail);
      ThenStaged(h, k, collector.Log(), at, i);
      if err.Some? && !Explained(err.value) {
        BecauseChild(collector.Log(), root, err.value, collector.found, pending, parent, child);
      }
      if err.None? {
        Facts();
        AloneComplete(collector.found, pending, order, child);
      }
    }

    /** The next child of the document that was obtained last when the loop began. */
    lemma ChildMayBeAsked(h: History, k: History, found: map<string, Artifact>, i: nat)
      requires Extends(h, k) && Truthful(h, found) && Since(h, k, ChildrenFrom(|h.asked|, i))
      ensures Unused(k, OfChild(|h.asked|, i)) && ChildrenOf(k, |h.asked|) == ChildrenOf(h, |h.asked|)
    {
      hide Since, Unused, ChildrenOf;
      NoChildUsed(h, found, i);
      ChildStillUnused(h, k, i);
      SameWarrant(h, k, |h.asked|);
    }

    /** The request for a child. */
    method AskFor(child: Descriptor, ghost trail: seq<string>, ghost parent: string, ghost at: nat, ghost i: nat)
      returns (r: Fetched)
      requires Valid() && Leads(pending, visiting, trail, root, child.digest) && trail != []
      requires parent in pending && child in pending[parent].manifests && ChildOk(collector.formats, child)
      requires at <= |collector.asked| && i < |ChildrenOf(collector.Log(), at)| && ChildrenOf(collector.Log(), at)[i] == child
      requires Unused(collector.Log(), OfChild(at, i))
      requires child.digest !in pending && child.digest !in collector.found && collector.attempts < MAX_FETCHES
      modifies collector`attempts, collector`asked
      ensures Valid() && collector.Log() == Asking(old(collector.Log()), Request(child.digest, OfChild(at, i)))
      ensures r == Obtained(collector.Log(), |collector.asked|) && (r.Found? ==> r.digest == child.digest)
      ensures Arrived(collector.Log(), query, root, child.digest, "", "", false)
    {
      hide Staged, Collected, Below, Grounded, Truthful, FetchedAs, Warranted, Queried, Unused, ChildrenOf;
      Facts();
      ghost var h := collector.Log();
      ChildWarranted(h, at, i);
      r := collector.Ask(child.digest, OfChild(at, i));
      GroundedStays(h, collector.Log(), query, root, pending);
      RootStaged(pending, visiting, trail, root);
    }
  }
}
