/** The high side's container repositories: what every history of imports keeps reachable. */
module Repository {
  import opened Bytes

  datatype Doc = Doc(digest: string, mediaType: string)

  datatype Child = Child(digest: string, mediaType: string, size: int)

  /** An attached artifact as a bundle reports it. */
  datatype Report = Report(digest: string, tag: string, mediaType: string, size: int, manifests: seq<Child>)

  /** An artifact as its verified manifest describes it. */
  datatype Stored = Stored(digest: string, mediaType: string, size: int, manifests: seq<Child>)

  datatype Image = Image(tag: string, digest: string, mediaType: string, index: Option<Doc>, artifacts: seq<Report>)

  /** A repository's index: its images, its artifacts by digest, and its artifact tags. */
  datatype Repo = Repo(images: seq<Image>, artifacts: map<string, Stored>, tags: map<string, string>)

  /** The digest syntax and the stored blobs: what the manifest of a reported artifact says, if it is
      there, hashes right and matches the report. */
  datatype Store = Store(isDigest: string -> bool, manifest: Report -> Option<Stored>)

  /** storedContainerArtifact. */
  function StoredArtifact(s: Store, r: Report): (a: Option<Stored>)
    ensures a.Some? ==> a.value.digest == r.digest && s.isDigest(r.digest)
  {
    if s.isDigest(r.digest) && s.manifest(r).Some? then Some(s.manifest(r).value.(digest := r.digest)) else None
  }

  // ---- what a repository serves ----

  /** containerImageServedDigest. */
  function Served(i: Image): string { if i.index.Some? then i.index.value.digest else i.digest }

  /** containerImageDoc. */
  function DocOf(i: Image): Doc { if i.index.Some? then i.index.value else Doc(i.digest, i.mediaType) }

  /** containerImageKey. */
  function Key(i: Image): string { if i.tag != "" then TagKey(i.tag) else DigestKey(Served(i)) }

  function TagKey(t: string): string { "tag:" + t }

  function DigestKey(d: string): string { "digest:" + d }

  lemma KeysApart(a: string, b: string)
    ensures TagKey(a) == TagKey(b) ==> a == b
    ensures DigestKey(a) == DigestKey(b) ==> a == b
    ensures TagKey(a) != DigestKey(b)
  {
    assert TagKey(a)[4..] == a && TagKey(b)[4..] == b;
    assert DigestKey(a)[7..] == a && DigestKey(b)[7..] == b;
    assert TagKey(a)[0] == 't' && DigestKey(b)[0] == 'd';
  }

  lemma SameKey(i: Image, k: Image)
    requires Key(i) == Key(k)
    ensures i.tag == k.tag && (i.tag == "" ==> Served(i) == Served(k))
  {
    KeysApart(i.tag, k.tag);
    KeysApart(Served(i), Served(k));
    KeysApart(i.tag, Served(k));
    KeysApart(k.tag, Served(i));
  }

  /** containerImageManifestDoc. */
  function Match(i: Image, ref: string, byDigest: bool): Option<Doc>
  {
    if byDigest && i.digest == ref then Some(Doc(i.digest, i.mediaType))
    else if byDigest && i.index.Some? && i.index.value.digest == ref then Some(i.index.value)
    else if !byDigest && i.tag == ref then Some(DocOf(i))
    else None
  }

  /** findContainerManifestDoc's walk over the images. */
  function FindImage(images: seq<Image>, ref: string, byDigest: bool): Option<Doc>
  {
    if images == [] then None
    else
      var m := Match(images[0], ref, byDigest);
      if m.Some? then m else FindImage(images[1..], ref, byDigest)
  }

  /** findContainerManifestDoc. */
  function Find(s: Store, r: Repo, ref: string): Option<Doc>
  {
    var digest := if s.isDigest(ref) then ref else if ref in r.tags then r.tags[ref] else "";
    if digest in r.artifacts then Some(Doc(r.artifacts[digest].digest, r.artifacts[digest].mediaType))
    else FindImage(r.images, ref, s.isDigest(ref))
  }

  // ---- a consistent repository ----

  predicate UniqueKeys(images: seq<Image>)
  {
    forall i, k | 0 <= i < k < |images| :: Key(images[i]) != Key(images[k])
  }

  predicate Closed(artifacts: map<string, Stored>)
  {
    forall d | d in artifacts :: forall c | c in artifacts[d].manifests ::
      c.digest in artifacts && artifacts[c.digest].size == c.size && artifacts[c.digest].mediaType == c.mediaType
  }

  ghost predicate RepoOk(s: Store, r: Repo)
  {
    && UniqueKeys(r.images) && Closed(r.artifacts)
    && (forall d | d in r.artifacts :: r.artifacts[d].digest == d && s.isDigest(d))
    && (forall t | t in r.tags :: r.tags[t] in r.artifacts)
  }

  ghost predicate Serves(images: seq<Image>, d: string)
  {
    exists i :: 0 <= i < |images| && Served(images[i]) == d
  }

  /** A tag of an image list, by the walk. */
  function TagDoc(images: seq<Image>, t: string): Option<Doc> { FindImage(images, t, false) }

  /** Some image with the tag has the document. */
  ghost predicate Shows(images: seq<Image>, t: string, doc: Doc)
  {
    exists i :: 0 <= i < |images| && images[i].tag == t && DocOf(images[i]) == doc
  }

  lemma {:induction false} TagDocIs(images: seq<Image>, t: string, i: nat)
    requires UniqueKeys(images) && i < |images| && images[i].tag == t && t != ""
    ensures TagDoc(images, t) == Some(DocOf(images[i]))
  {
    assert i > 0 ==> Key(images[0]) != Key(images[i]);
    if i > 0 {
      TagDocIs(images[1..], t, i - 1);
    }
  }

  lemma {:induction false} NoTagDoc(images: seq<Image>, t: string)
    requires forall i | 0 <= i < |images| :: images[i].tag != t
    ensures TagDoc(images, t) == None
  {
    if images != [] {
      NoTagDoc(images[1..], t);
    }
  }

  /** With unique keys the walk finds whichever image has the tag. */
  lemma TagDocShows(images: seq<Image>, t: string)
    requires UniqueKeys(images) && t != ""
    ensures forall doc :: Shows(images, t, doc) <==> TagDoc(images, t) == Some(doc)
  {
    hide DocOf;
    if i: nat :| i < |images| && images[i].tag == t {
      TagDocIs(images, t, i);
      forall doc | Shows(images, t, doc) ensures TagDoc(images, t) == Some(doc) {
        var k: nat :| k < |images| && images[k].tag == t && DocOf(images[k]) == doc;
        TagDocIs(images, t, k);
      }
    } else {
      NoTagDoc(images, t);
    }
  }

  lemma {:induction false} FindsDigest(images: seq<Image>, d: string)
    requires Serves(images, d)
    ensures FindImage(images, d, true).Some? && FindImage(images, d, true).value.digest == d
  {
    var i :| 0 <= i < |images| && Served(images[i]) == d;
    if i > 0 && Match(images[0], d, true).None? {
      assert images[1..][i - 1] == images[i];
      FindsDigest(images[1..], d);
    }
  }

  /** Every digest a repository serves resolves to itself. */
  lemma ServedResolves(s: Store, r: Repo, d: string)
    requires RepoOk(s, r) && Serves(r.images, d) && s.isDigest(d)
    ensures Find(s, r, d).Some? && Find(s, r, d).value.digest == d
  {
    FindsDigest(r.images, d);
  }

  // ---- one import ----

  /** The last image of an import with a tag. */
  function ImageNaming(images: seq<Image>, t: string): Option<Doc>
  {
    if images == [] then None
    else if images[|images| - 1].tag == t then Some(DocOf(images[|images| - 1]))
    else ImageNaming(images[..|images| - 1], t)
  }

  function Reports(images: seq<Image>): seq<Report>
  {
    if images == [] then [] else Reports(images[..|images| - 1]) + images[|images| - 1].artifacts
  }

  /** The digest of the last artifact of an import with a tag. */
  function ArtifactNaming(reports: seq<Report>, t: string): Option<string>
  {
    if reports == [] then None
    else if reports[|reports| - 1].tag == t then Some(reports[|reports| - 1].digest)
    else ArtifactNaming(reports[..|reports| - 1], t)
  }

  /** A stored artifact after some reports: an artifact known before, or what the first report of its
      digest stored. */
  function Known(s: Store, artifacts: map<string, Stored>, reports: seq<Report>, d: string): Option<Stored>
  {
    if d in artifacts then Some(artifacts[d])
    else if reports == [] then None
    else
      var n := |reports| - 1;
      var earlier := Known(s, artifacts, reports[..n], d);
      if earlier.Some? then earlier else if reports[n].digest == d then StoredArtifact(s, reports[n]) else None
  }

  /** Every report is of an artifact already known or one its manifest can store. */
  ghost predicate Storable(s: Store, artifacts: map<string, Stored>, reports: seq<Report>)
  {
    forall i | 0 <= i < |reports| :: Known(s, artifacts, reports[..i + 1], reports[i].digest).Some?
  }

  /** The artifacts known after some reports have all their children, as they describe them. */
  ghost predicate Complete(s: Store, artifacts: map<string, Stored>, reports: seq<Report>)
  {
    forall d | Known(s, artifacts, reports, d).Some? :: forall c | c in Known(s, artifacts, reports, d).value.manifests ::
      var child := Known(s, artifacts, reports, c.digest);
      child.Some? && child.value.size == c.size && child.value.mediaType == c.mediaType
  }

  /** What a repository accepts: a whole import, its artifacts readable and their graph complete. */
  ghost predicate Accepts(s: Store, r: Repo, incoming: seq<Image>)
  {
    Storable(s, r.artifacts, Reports(incoming)) && Complete(s, r.artifacts, Reports(incoming))
  }

  function Lookup(artifacts: map<string, Stored>, d: string): Option<Stored>
  {
    if d in artifacts then Some(artifacts[d]) else None
  }

  /** Some image has the key and the served digest of another, and the artifacts that one was seen with. */
  ghost predicate Carries(images: seq<Image>, x: Image)
  {
    exists i :: 0 <= i < |images| && CarriedBy(images[i], x)
  }

  ghost predicate CarriedBy(q: Image, x: Image)
  {
    Key(q) == Key(x) && Served(q) == Served(x) && forall d :: Mentions(x.artifacts, d) ==> Mentions(q.artifacts, d)
  }

  /** No later image of a sequence moves the key of the i-th to another served digest. */
  ghost predicate Current(all: seq<Image>, i: nat)
    requires i < |all|
  {
    forall k | i < k < |all| && Key(all[k]) == Key(all[i]) :: Served(all[k]) == Served(all[i])
  }

  /** Of a sequence of images, those whose key has not moved since are carried with their artifacts. */
  ghost predicate Observed(all: seq<Image>, images: seq<Image>)
  {
    forall i | 0 <= i < |all| && Current(all, i) :: Carries(images, all[i])
  }

  /** The same manifest and the same index. */
  predicate SameContent(x: Image, y: Image) { x.digest == y.digest && x.mediaType == y.mediaType && x.index == y.index }

  /** Nothing but images of a sequence, apart from tags and artifacts, and no artifact that none of those
      served under the same digest was seen with. */
  ghost predicate From(all: seq<Image>, images: seq<Image>)
  {
    && (forall x | x in images :: exists y :: y in all && SameContent(x, y))
    && forall x, d | x in images && Mentions(x.artifacts, d) :: SeenWith(all, Served(x), d)
  }

  ghost predicate SeenWith(all: seq<Image>, served: string, d: string)
  {
    exists y :: y in all && Served(y) == served && Mentions(y.artifacts, d)
  }

  /** What an import that succeeds makes of a repository. */
  ghost predicate Merged(s: Store, r: Repo, incoming: seq<Image>, q: Repo)
  {
    && RepoOk(s, q)
    && (forall d :: Serves(q.images, d) <==> Serves(r.images, d) || Serves(incoming, d))
    && (forall d | d in r.artifacts :: d in q.artifacts && q.artifacts[d] == r.artifacts[d])
    && (forall d :: Lookup(q.artifacts, d) == Known(s, r.artifacts, Reports(incoming), d))
    && (forall x | x in Reports(incoming) :: x.digest in q.artifacts)
    && Observed(r.images + incoming, q.images) && From(r.images + incoming, q.images)
    && (forall t | t != "" :: TagDoc(q.images, t) ==
          if ImageNaming(incoming, t).Some? then ImageNaming(incoming, t) else TagDoc(r.images, t))
    && (forall t | t != "" :: TagAfter(r, incoming, t) == if t in q.tags then Some(q.tags[t]) else None)
  }

  /** Where an artifact tag points after an import: to the artifact the import names with it; else
      nowhere if an image took the tag; else where it pointed before. */
  function TagAfter(r: Repo, incoming: seq<Image>, t: string): Option<string>
  {
    if ArtifactNaming(Reports(incoming), t).Some? then ArtifactNaming(Reports(incoming), t)
    else if ImageNaming(incoming, t).Some? || t !in r.tags then None
    else Some(r.tags[t])
  }

  /** What an import says about a tag; an artifact wins over an image. */
  function Naming(s: Store, q: Repo, incoming: seq<Image>, t: string): Option<Doc>
  {
    var a := ArtifactNaming(Reports(incoming), t);
    if a.Some? then
      if a.value in q.artifacts then Some(Doc(a.value, q.artifacts[a.value].mediaType)) else None
    else ImageNaming(incoming, t)
  }

  /** After an import a tag it names resolves to what it says, and any other as before. */
  lemma TagResolves(s: Store, r: Repo, incoming: seq<Image>, q: Repo, t: string)
    requires RepoOk(s, r) && Merged(s, r, incoming, q) && t != "" && !s.isDigest(t) && !s.isDigest("")
    ensures Find(s, q, t) ==
      if Naming(s, q, incoming, t).Some? then Naming(s, q, incoming, t) else Find(s, r, t)
  {
    hide Closed, UniqueKeys, Serves;
    if ArtifactNaming(Reports(incoming), t).Some? {
      NamedReported(Reports(incoming), t);
    }
  }

  lemma {:induction false} NamedReported(reports: seq<Report>, t: string)
    requires ArtifactNaming(reports, t).Some?
    ensures exists x :: x in reports && x.digest == ArtifactNaming(reports, t).value
  {
    var last := reports[|reports| - 1];
    if last.tag == t {
      assert last in reports;
    } else {
      NamedReported(reports[..|reports| - 1], t);
    }
  }

  // ---- merging, in place ----

  /** The list with its map from key to position. */
  ghost predicate Indexed(images: seq<Image>, byKey: map<string, nat>)
  {
    && (forall k | k in byKey :: byKey[k] < |images| && Key(images[byKey[k]]) == k)
    && (forall i | 0 <= i < |images| :: Key(images[i]) in byKey && byKey[Key(images[i])] == i)
  }

  lemma IndexedUnique(images: seq<Image>, byKey: map<string, nat>)
    requires Indexed(images, byKey)
    ensures UniqueKeys(images)
  {
    hide Key;
    forall i, k | 0 <= i < k < |images| ensures Key(images[i]) != Key(images[k]) {
      assert byKey[Key(images[i])] == i && byKey[Key(images[k])] == k;
    }
  }

  ghost predicate Mentions(reports: seq<Report>, d: string) { exists i :: 0 <= i < |reports| && reports[i].digest == d }

  /** retainContainerArtifacts: earlier observations stay, newer ones of the same digest replace them. */
  method Retain(previous: seq<Report>, next: seq<Report>) returns (merged: seq<Report>)
    ensures forall d :: Mentions(merged, d) <==> Mentions(previous, d) || Mentions(next, d)
    ensures forall x | x in merged :: x in previous || x in next
    ensures forall x | x in previous && !Mentions(next, x.digest) :: x in merged
    ensures forall i | 0 <= i < |next| && Latest(next, i) :: next[i] in merged
    ensures OnceEach(previous) ==> OnceEach(merged)
  {
    hide OnceEach, Retaining;
    merged := previous;
    assert next[..0] == [];
    RetainingNothing(previous);
    var positions: map<string, nat> := map[];
    for i := 0 to |merged|
      invariant merged == previous
      invariant forall d | d in positions :: positions[d] < |merged| && merged[positions[d]].digest == d
      invariant forall k | 0 <= k < i :: merged[k].digest in positions
    {
      positions := positions[merged[i].digest := i];
    }
    for i := 0 to |next|
      invariant forall d | d in positions :: positions[d] < |merged| && merged[positions[d]].digest == d
      invariant forall k | 0 <= k < |merged| :: merged[k].digest in positions
      invariant Retaining(previous, next[..i], merged)
    {
      var d := next[i].digest;
      assert next[..i + 1] == next[..i] + [next[i]];
      if d in positions {
        RetainingReplaced(previous, next[..i], merged, positions[d], next[i]);
        merged := merged[positions[d] := next[i]];
      } else {
        RetainingAppended(previous, next[..i], merged, next[i]);
        positions := positions[d := |merged|];
        merged := merged + [next[i]];
      }
    }
    assert next[..|next|] == next;
    assert Retaining(previous, next, merged);
    Retained(previous, next, merged);
  }

  /** What a list is once some newer reports have been merged into it. */
  ghost predicate Retaining(previous: seq<Report>, next: seq<Report>, merged: seq<Report>)
  {
    && (forall d :: Mentions(merged, d) <==> Mentions(previous, d) || Mentions(next, d))
    && (forall x | x in merged :: x in previous || x in next)
    && (forall x | x in previous && !Mentions(next, x.digest) :: x in merged)
    && (forall i | 0 <= i < |next| && Latest(next, i) :: next[i] in merged)
    && (OnceEach(previous) ==> OnceEach(merged))
  }

  lemma Retained(previous: seq<Report>, next: seq<Report>, merged: seq<Report>)
    requires Retaining(previous, next, merged)
    ensures forall d :: Mentions(merged, d) <==> Mentions(previous, d) || Mentions(next, d)
    ensures forall x | x in merged :: x in previous || x in next
    ensures forall x | x in previous && !Mentions(next, x.digest) :: x in merged
    ensures forall i | 0 <= i < |next| && Latest(next, i) :: next[i] in merged
    ensures OnceEach(previous) ==> OnceEach(merged)
  {
    hide Latest, OnceEach, Mentions;
  }

  lemma RetainingNothing(previous: seq<Report>)
    ensures Retaining(previous, [], previous)
  {
  }

  lemma RetainingReplaced(previous: seq<Report>, next: seq<Report>, merged: seq<Report>, i: nat, x: Report)
    requires Retaining(previous, next, merged) && i < |merged| && merged[i].digest == x.digest
    ensures Retaining(previous, next + [x], merged[i := x])
  {
    hide OnceEach, Mentions, Latest;
    MentionsReplaced(merged, i, x);
    MentionsAppended(next, x);
    OnceReplaced(merged, i, x);
    LatestNext(next, x);
    var now := merged[i := x];
    assert now[i] == x && (next + [x])[|next|] == x;
  }

  lemma RetainingAppended(previous: seq<Report>, next: seq<Report>, merged: seq<Report>, x: Report)
    requires Retaining(previous, next, merged) && forall k | 0 <= k < |merged| :: merged[k].digest != x.digest
    ensures Retaining(previous, next + [x], merged + [x])
  {
    hide OnceEach, Mentions, Latest;
    MentionsAppended(merged, x);
    MentionsAppended(next, x);
    OnceAppended(merged, x);
    LatestNext(next, x);
    assert (merged + [x])[|merged|] == x && (next + [x])[|next|] == x;
  }

  /** No later report is of the same digest. */
  predicate Latest(next: seq<Report>, i: nat)
    requires i < |next|
  {
    forall k | i < k < |next| :: next[k].digest != next[i].digest
  }

  predicate OnceEach(reports: seq<Report>)
  {
    forall i, k | 0 <= i < k < |reports| :: reports[i].digest != reports[k].digest
  }

  lemma OnceReplaced(reports: seq<Report>, i: nat, x: Report)
    requires i < |reports| && reports[i].digest == x.digest
    ensures OnceEach(reports) ==> OnceEach(reports[i := x])
    ensures forall y | y in reports && y.digest != x.digest :: y in reports[i := x]
  {
    forall y | y in reports && y.digest != x.digest ensures y in reports[i := x] {
      var k :| 0 <= k < |reports| && reports[k] == y;
      assert reports[i := x][k] == y;
    }
  }

  lemma OnceAppended(reports: seq<Report>, x: Report)
    requires forall k | 0 <= k < |reports| :: reports[k].digest != x.digest
    ensures OnceEach(reports) ==> OnceEach(reports + [x])
  {
  }

  lemma LatestNext(next: seq<Report>, x: Report)
    ensures forall k | 0 <= k < |next| && Latest(next + [x], k) :: Latest(next, k) && next[k].digest != x.digest
  {
    var now := next + [x];
    forall k | 0 <= k < |next| && Latest(now, k) ensures Latest(next, k) && next[k].digest != x.digest {
      assert now[|next|] == x && forall m | k < m < |next| :: now[m] == next[m];
    }
  }

  lemma MentionsReplaced(reports: seq<Report>, i: nat, x: Report)
    requires i < |reports| && reports[i].digest == x.digest
    ensures forall d :: Mentions(reports[i := x], d) <==> Mentions(reports, d)
    ensures Mentions(reports, x.digest)
  {
    var now := reports[i := x];
    forall d ensures Mentions(now, d) <==> Mentions(reports, d) {
      if Mentions(reports, d) {
        var k :| 0 <= k < |reports| && reports[k].digest == d;
        assert now[k].digest == d;
      }
      if Mentions(now, d) {
        var k :| 0 <= k < |now| && now[k].digest == d;
        assert reports[k].digest == d;
      }
    }
  }

  lemma MentionsAppended(reports: seq<Report>, x: Report)
    ensures forall d :: Mentions(reports + [x], d) <==> Mentions(reports, d) || d == x.digest
  {
    var now := reports + [x];
    assert now[|reports|] == x;
    forall d ensures Mentions(now, d) <==> Mentions(reports, d) || d == x.digest {
      if Mentions(reports, d) {
        var k :| 0 <= k < |reports| && reports[k].digest == d;
        assert now[k].digest == d;
      }
    }
  }

  /** What a step of the merge loop does to the list. */
  ghost predicate Added(images: seq<Image>, img: Image, more: seq<Image>)
  {
    && (forall d :: Serves(more, d) <==> Serves(images, d) || d == Served(img))
    && (forall t, doc | t != "" :: Shows(more, t, doc) <==> if t == img.tag then doc == DocOf(img) else Shows(images, t, doc))
  }

  /** preserveMovedContainerImage: keeps the previous image of a moving tag reachable by its digest. */
  method PreserveMoved(images: seq<Image>, byKey: map<string, nat>, previous: Image, next: Image)
    returns (more: seq<Image>, keys: map<string, nat>)
    requires Indexed(images, byKey) && previous in images && Key(previous) == Key(next)
    ensures Indexed(more, keys) && images <= more && |more| <= |images| + 1
    ensures forall d :: Serves(more, d) <==> Serves(images, d)
    ensures forall i | |images| <= i < |more| :: more[i] == previous.(tag := "")
    ensures next.tag != "" && Served(previous) != Served(next) ==>
      exists i :: 0 <= i < |more| && more[i].tag == "" && Served(more[i]) == Served(previous)
    ensures forall k | k in byKey :: k in keys && keys[k] == byKey[k]
    ensures more == images + if Served(previous) == Served(next) || (exists i :: 0 <= i < |images| && Pins(images[i], Served(previous)))
      then [] else [previous.(tag := "")]
  {
    more, keys := images, byKey;
    SameKey(previous, next);
    if next.tag == "" || Served(previous) == Served(next) {
      assert more == images + [];
      return;
    }
    var kept := previous.(tag := "");
    var key := DigestKey(Served(kept));
    if key in byKey {
      KeyOfPin(images[byKey[key]], Served(kept));
      assert Pins(images[byKey[key]], Served(previous)) && more == images + [];
      return;
    }
    keys := byKey[key := |images|];
    more := images + [kept];
    assert more[|images|] == kept;
    if i :| 0 <= i < |images| && Pins(images[i], Served(previous)) {
      assert Key(images[i]) == key;
    }
    ServesMore(images, kept, previous);
  }

  /** The image keeps a digest without a tag. */
  predicate Pins(i: Image, d: string) { i.tag == "" && Served(i) == d }

  lemma KeyOfPin(i: Image, d: string)
    requires Key(i) == DigestKey(d)
    ensures i.tag == "" && Served(i) == d
  {
    KeysApart(i.tag, d);
    KeysApart(Served(i), d);
  }

  lemma ServesMore(images: seq<Image>, kept: Image, previous: Image)
    requires previous in images && Served(kept) == Served(previous)
    ensures forall d :: Serves(images + [kept], d) <==> Serves(images, d)
  {
    hide Served;
    var more := images + [kept];
    forall d ensures Serves(more, d) <==> Serves(images, d) {
      if Serves(images, d) {
        var i :| 0 <= i < |images| && Served(images[i]) == d;
        assert more[i] == images[i];
      }
      if Serves(more, d) {
        var i :| 0 <= i < |more| && Served(more[i]) == d;
        if i == |images| {
          var k :| 0 <= k < |images| && images[k] == previous;
          assert Served(images[k]) == d;
        } else {
          assert more[i] == images[i];
        }
      }
    }
  }

  /** One turn of mergeContainerImages' loop. */
  method AddImage(images: seq<Image>, byKey: map<string, nat>, img: Image) returns (more: seq<Image>, keys: map<string, nat>)
    requires Indexed(images, byKey)
    ensures Indexed(more, keys) && Added(images, img, more) && Carrying(images, img, more) && From(images + [img], more)
  {
    hide Key, Added, Carrying, From;
    if Key(img) !in byKey {
      more, keys := images + [img], byKey[Key(img) := |images|];
      AppendedCarries(images, img);
      FromItself(images + [img]);
      AppendedAdds(images, byKey, img);
      return;
    }
    var i := byKey[Key(img)];
    SameKey(images[i], img);
    more, keys := PreserveMoved(images, byKey, images[i], img);
    var next := img;
    if Served(more[i]) == Served(img) {
      var artifacts := Retain(more[i].artifacts, img.artifacts);
      next := img.(artifacts := artifacts);
    }
    KeyKept(img, next.artifacts);
    ReplacedAdds(images, byKey, more, img, next, i);
    ReplacedCarries(images, more, img, next, i);
    ReplacedFrom(images, more, img, next, i);
    more := more[i := next];
  }

  lemma FromItself(images: seq<Image>)
    ensures From(images, images)
  {
    hide Mentions, Served;
    assert forall x :: SameContent(x, x);
  }

  lemma ReplacedFrom(images: seq<Image>, more: seq<Image>, img: Image, next: Image, i: nat)
    requires images <= more && i < |images| && SameContent(next, img)
    requires forall k | |images| <= k < |more| :: SameContent(more[k], images[i]) && more[k].artifacts == images[i].artifacts
    requires forall d | Mentions(next.artifacts, d) ::
      Mentions(img.artifacts, d) || (Served(images[i]) == Served(img) && Mentions(images[i].artifacts, d))
    ensures From(images + [img], more[i := next])
  {
    hide Mentions;
    var now, all := more[i := next], images + [img];
    assert all[|images|] == img && img in all && images[i] in all;
    forall x | x in now ensures Stands(all, x) {
      var k :| 0 <= k < |now| && now[k] == x;
      if k == i {
        assert Served(next) == Served(img);
      } else if k < |images| {
        assert images[k] in all && x == images[k];
      } else {
        assert Served(x) == Served(images[i]);
      }
    }
    StandFrom(all, now);
  }

  ghost predicate Stands(all: seq<Image>, x: Image)
  {
    (exists y :: y in all && SameContent(x, y)) && forall d | Mentions(x.artifacts, d) :: SeenWith(all, Served(x), d)
  }

  lemma StandFrom(all: seq<Image>, images: seq<Image>)
    requires forall x | x in images :: Stands(all, x)
    ensures From(all, images)
  {
    hide SeenWith, Mentions, SameContent, Served;
    forall x | x in images ensures exists y :: y in all && SameContent(x, y) {
      assert Stands(all, x);
    }
    forall x, d | x in images && Mentions(x.artifacts, d) ensures SeenWith(all, Served(x), d) {
      assert Stands(all, x);
    }
  }

  lemma FromTrans(all: seq<Image>, was: seq<Image>, more: seq<Image>, images: seq<Image>)
    requires From(all, was) && From(was + more, images)
    ensures From(all + more, images)
  {
    hide Mentions, Served;
    forall x | x in images ensures Stands(all + more, x) {
      var y :| y in was + more && SameContent(x, y);
      if y in was {
        var z :| z in all && SameContent(y, z);
        assert z in all + more && SameContent(x, z);
      }
      forall d | Mentions(x.artifacts, d) ensures SeenWith(all + more, Served(x), d) {
        assert SeenWith(was + more, Served(x), d);
        var y :| y in was + more && Served(y) == Served(x) && Mentions(y.artifacts, d);
        if y in was {
          assert SeenWith(all, Served(y), d);
          var z :| z in all && Served(z) == Served(x) && Mentions(z.artifacts, d);
          assert z in all + more;
        }
      }
    }
    StandFrom(all + more, images);
  }

  lemma FromPermuted(all: seq<Image>, images: seq<Image>, sorted: seq<Image>)
    requires From(all, images) && multiset(sorted) == multiset(images)
    ensures From(all, sorted)
  {
    Elements(sorted, images);
  }

  /** A step carries its image, and whatever was carried before unless it moves that key. */
  ghost predicate Carrying(images: seq<Image>, img: Image, more: seq<Image>)
  {
    Carries(more, img) && forall p: Image :: Carries(images, p) && (Key(p) == Key(img) ==> Served(p) == Served(img)) ==> Carries(more, p)
  }

  lemma AppendedCarries(images: seq<Image>, img: Image)
    ensures Carrying(images, img, images + [img])
  {
    hide CarriedBy;
    var more := images + [img];
    assert CarriedBy(more[|images|], img) by { hide *; CarriesItself(img); }
    forall p | Carries(images, p) ensures Carries(more, p) {
      var i :| 0 <= i < |images| && CarriedBy(images[i], p);
      assert CarriedBy(more[i], p);
    }
  }

  lemma CarriesItself(img: Image)
    ensures CarriedBy(img, img)
  {
  }

  lemma ReplacedCarries(images: seq<Image>, more: seq<Image>, img: Image, next: Image, i: nat)
    requires images <= more && i < |images| && Key(images[i]) == Key(img) && CarriedBy(next, img)
    requires Served(images[i]) == Served(img) ==> CarriedBy(next, images[i])
    ensures Carrying(images, img, more[i := next])
  {
    hide Key, Served;
    var now := more[i := next];
    assert CarriedBy(now[i], img);
    forall p | Carries(images, p) && (Key(p) == Key(img) ==> Served(p) == Served(img)) ensures Carries(now, p) {
      var k :| 0 <= k < |images| && CarriedBy(images[k], p);
      assert CarriedBy(now[k], p);
    }
  }

  lemma KeyKept(img: Image, artifacts: seq<Report>)
    ensures Key(img.(artifacts := artifacts)) == Key(img)
  {
  }

  lemma AppendedAdds(images: seq<Image>, byKey: map<string, nat>, img: Image)
    requires Indexed(images, byKey) && Key(img) !in byKey
    ensures Indexed(images + [img], byKey[Key(img) := |images|]) && Added(images, img, images + [img])
  {
    hide Served, DocOf;
    var more := images + [img];
    assert more[|images|] == img;
    assert img.tag != "" ==> forall i | 0 <= i < |images| && images[i].tag == img.tag :: Key(images[i]) == Key(img);
    forall d ensures Serves(more, d) <==> Serves(images, d) || d == Served(img) {
      if Serves(images, d) {
        var i :| 0 <= i < |images| && Served(images[i]) == d;
        assert more[i] == images[i];
      }
    }
    forall t, doc | t != "" ensures Shows(more, t, doc) <==> if t == img.tag then doc == DocOf(img) else Shows(images, t, doc) {
      if i :| 0 <= i < |images| && images[i].tag == t && DocOf(images[i]) == doc {
        assert more[i] == images[i];
      }
    }
  }

  lemma ReplacedAdds(images: seq<Image>, byKey: map<string, nat>, more: seq<Image>, img: Image, next: Image, i: nat)
    requires Indexed(images, byKey) && images <= more && |more| <= |images| + 1 && i < |images|
    requires Key(images[i]) == Key(img) && next == img.(artifacts := next.artifacts)
    requires forall d :: Serves(more, d) <==> Serves(images, d)
    requires forall k | |images| <= k < |more| :: more[k].tag == ""
    requires img.tag != "" && Served(images[i]) != Served(img) ==>
      exists k :: 0 <= k < |more| && more[k].tag == "" && Served(more[k]) == Served(images[i])
    ensures Added(images, img, more[i := next])
  {
    hide DocOf, Key, Indexed;
    SameKey(images[i], img);
    var now := more[i := next];
    assert DocOf(next) == DocOf(img) by { DocKept(img, next.artifacts); }
    forall d ensures Serves(now, d) <==> Serves(images, d) || d == Served(img) {
      ReplacedServes(images, more, img, next, i, d);
    }
    IndexedUnique(images, byKey);
    forall t, doc | t != "" ensures Shows(now, t, doc) <==> if t == img.tag then doc == DocOf(img) else Shows(images, t, doc) {
      ReplacedShows(images, more, img, next, i, t, doc);
    }
  }

  lemma DocKept(img: Image, artifacts: seq<Report>)
    ensures DocOf(img.(artifacts := artifacts)) == DocOf(img)
  {
  }

  lemma ReplacedServes(images: seq<Image>, more: seq<Image>, img: Image, next: Image, i: nat, d: string)
    requires images <= more && i < |images| && next == img.(artifacts := next.artifacts)
    requires Serves(more, d) <==> Serves(images, d)
    requires img.tag == "" ==> Served(images[i]) == Served(img)
    requires img.tag == images[i].tag
    requires img.tag != "" && Served(images[i]) != Served(img) ==>
      exists k :: 0 <= k < |more| && more[k].tag == "" && Served(more[k]) == Served(images[i])
    ensures Serves(more[i := next], d) <==> Serves(images, d) || d == Served(img)
  {
    var now := more[i := next];
    assert now[i] == next && Served(next) == Served(img);
    if Serves(images, d) && d != Served(img) {
      var k :| 0 <= k < |more| && Served(more[k]) == d;
      if k == i {
        var n :| 0 <= n < |more| && more[n].tag == "" && Served(more[n]) == Served(images[i]);
        assert now[n] == more[n];
      } else {
        assert now[k] == more[k];
      }
    }
    if Serves(now, d) && d != Served(img) {
      var k :| 0 <= k < |now| && Served(now[k]) == d;
      assert more[k] == now[k];
    }
  }

  lemma ReplacedShows(images: seq<Image>, more: seq<Image>, img: Image, next: Image, i: nat, t: string, doc: Doc)
    requires images <= more && i < |images| && UniqueKeys(images) && DocOf(next) == DocOf(img) && next.tag == img.tag
    requires img.tag == images[i].tag && t != "" && forall k | |images| <= k < |more| :: more[k].tag == ""
    ensures Shows(more[i := next], t, doc) <==> if t == img.tag then doc == DocOf(img) else Shows(images, t, doc)
  {
    hide DocOf;
    var now := more[i := next];
    assert now[i] == next;
    assert img.tag != "" ==> forall k | 0 <= k < |images| && images[k].tag == img.tag :: Key(images[k]) == Key(images[i]);
    if k :| 0 <= k < |now| && now[k].tag == t && DocOf(now[k]) == doc {
      if k != i {
        assert now[k] == images[k];
      }
    }
    if t != img.tag && Shows(images, t, doc) {
      var k :| 0 <= k < |images| && images[k].tag == t && DocOf(images[k]) == doc;
      assert now[k] == images[k];
    }
  }

  /** mergeContainerImages: the images of an import joined to those of the repository. The final sort is
      the library's: some permutation. */
  method MergeImages(previous: seq<Image>, incoming: seq<Image>) returns (images: seq<Image>)
    requires UniqueKeys(previous)
    ensures UniqueKeys(images)
    ensures forall d :: Serves(images, d) <==> Serves(previous, d) || Serves(incoming, d)
    ensures forall t | t != "" ::
      TagDoc(images, t) == if ImageNaming(incoming, t).Some? then ImageNaming(incoming, t) else TagDoc(previous, t)
    ensures Observed(previous + incoming, images) && From(previous + incoming, images)
  {
    hide Key, DocOf, Served, UniqueKeys, TagDoc, Observed, Carrying, From;
    NothingObserved(previous);
    FromItself(previous);
    assert previous + incoming[..0] == previous;
    var byKey := IndexImages(previous);
    images := previous;
    for n := 0 to |incoming|
      invariant Indexed(images, byKey) && Observed(previous + incoming[..n], images) && From(previous + incoming[..n], images)
      invariant forall d :: Serves(images, d) <==> Serves(previous, d) || Serves(incoming[..n], d)
      invariant forall t, doc | t != "" :: Shows(images, t, doc) <==>
        if ImageNaming(incoming[..n], t).Some? then doc == ImageNaming(incoming[..n], t).value else Shows(previous, t, doc)
    {
      OneMore(incoming, n);
      ghost var was := images;
      images, byKey := AddImage(images, byKey, incoming[n]);
      ObservedMore(previous + incoming[..n], incoming[n], was, images);
      FromTrans(previous + incoming[..n], was, [incoming[n]], images);
      assert previous + incoming[..n] + [incoming[n]] == previous + incoming[..n + 1];
      forall t, doc | t != "" ensures Shows(images, t, doc) <==>
        if ImageNaming(incoming[..n + 1], t).Some? then doc == ImageNaming(incoming[..n + 1], t).value
        else Shows(previous, t, doc)
      {
        assert Shows(was, t, doc) <==> if ImageNaming(incoming[..n], t).Some? then doc == ImageNaming(incoming[..n], t).value
          else Shows(previous, t, doc);
        assert ImageNaming(incoming[..n + 1], t) == NextNaming(incoming, n, t);
      }
    }
    assert incoming[..|incoming|] == incoming;
    IndexedUnique(images, byKey);
    var sorted: seq<Image> :| multiset(sorted) == multiset(images);
    Permuted(images, sorted);
    PermutedCarries(previous + incoming, images, sorted);
    FromPermuted(previous + incoming, images, sorted);
    forall t | t != ""
      ensures TagDoc(sorted, t) == if ImageNaming(incoming, t).Some? then ImageNaming(incoming, t) else TagDoc(previous, t)
    {
      NamingDocs(previous, incoming, sorted, t);
    }
    images := sorted;
  }

  lemma NothingObserved(images: seq<Image>)
    ensures Observed(images + [], images)
  {
    assert images + [] == images;
    forall i | 0 <= i < |images| ensures Carries(images, images[i]) {
      CarriesItself(images[i]);
    }
  }

  lemma ObservedMore(all: seq<Image>, img: Image, was: seq<Image>, images: seq<Image>)
    requires Observed(all, was) && Carrying(was, img, images)
    ensures Observed(all + [img], images)
  {
    hide Key, Served, Carries;
    var now := all + [img];
    assert now[|all|] == img;
    forall i | 0 <= i < |now| && Current(now, i) ensures Carries(images, now[i]) {
      if i < |all| {
        assert Current(all, i) by {
          forall k | i < k < |all| && Key(all[k]) == Key(all[i]) ensures Served(all[k]) == Served(all[i]) {
            assert now[k] == all[k];
          }
        }
      }
    }
  }

  lemma PermutedCarries(all: seq<Image>, images: seq<Image>, sorted: seq<Image>)
    requires Observed(all, images) && multiset(sorted) == multiset(images)
    ensures Observed(all, sorted)
  {
    hide CarriedBy, Current;
    Elements(images, sorted);
    forall i | 0 <= i < |all| && Current(all, i) ensures Carries(sorted, all[i]) {
      var k :| 0 <= k < |images| && CarriedBy(images[k], all[i]);
      assert images[k] in sorted;
      var n :| 0 <= n < |sorted| && sorted[n] == images[k];
    }
  }

  method IndexImages(previous: seq<Image>) returns (byKey: map<string, nat>)
    requires UniqueKeys(previous)
    ensures Indexed(previous, byKey)
  {
    hide Key;
    byKey := map[];
    for i := 0 to |previous|
      invariant forall k | k in byKey :: byKey[k] < i && Key(previous[byKey[k]]) == k
      invariant forall n | 0 <= n < i :: Key(previous[n]) in byKey && byKey[Key(previous[n])] == n
    {
      byKey := byKey[Key(previous[i]) := i];
    }
  }

  function NextNaming(incoming: seq<Image>, n: nat, t: string): Option<Doc>
    requires n < |incoming|
  {
    if t == incoming[n].tag then Some(DocOf(incoming[n])) else ImageNaming(incoming[..n], t)
  }

  lemma OneMore(incoming: seq<Image>, n: nat)
    requires n < |incoming|
    ensures forall d :: Serves(incoming[..n + 1], d) <==> Serves(incoming[..n], d) || d == Served(incoming[n])
    ensures forall t ::
      ImageNaming(incoming[..n + 1], t) == NextNaming(incoming, n, t)
  {
    hide Served, DocOf;
    var now, was := incoming[..n + 1], incoming[..n];
    assert now == was + [incoming[n]] && now[..n] == was && now[n] == incoming[n];
    forall d ensures Serves(now, d) <==> Serves(was, d) || d == Served(incoming[n]) {
      if Serves(was, d) {
        var i :| 0 <= i < |was| && Served(was[i]) == d;
        assert now[i] == was[i];
      }
    }
    forall t ensures ImageNaming(now, t) == NextNaming(incoming, n, t) {
      assert now[|now| - 1] == incoming[n] && now[..|now| - 1] == was;
    }
  }

  /** Order does not matter to what an image list serves and shows. */
  lemma Permuted(images: seq<Image>, sorted: seq<Image>)
    requires multiset(sorted) == multiset(images) && UniqueKeys(images)
    ensures UniqueKeys(sorted) && forall d :: Serves(sorted, d) <==> Serves(images, d)
    ensures forall t, doc :: Shows(sorted, t, doc) <==> Shows(images, t, doc)
  {
    hide Key, DocOf, Served;
    Elements(images, sorted);
    Elements(sorted, images);
    forall d ensures Serves(sorted, d) <==> Serves(images, d) {
      ServesElement(sorted, d);
      ServesElement(images, d);
    }
    forall t, doc ensures Shows(sorted, t, doc) <==> Shows(images, t, doc) {
      ShowsElement(sorted, t, doc);
      ShowsElement(images, t, doc);
    }
    UniquePermuted(images, sorted);
  }

  lemma Elements(a: seq<Image>, b: seq<Image>)
    requires multiset(a) == multiset(b)
    ensures forall x | x in a :: x in b
  {
    forall x | x in a ensures x in b {
      assert x in multiset(a);
    }
  }

  lemma ServesElement(images: seq<Image>, d: string)
    ensures Serves(images, d) <==> exists x :: x in images && Served(x) == d
  {
    if x :| x in images && Served(x) == d {
      var i :| 0 <= i < |images| && images[i] == x;
    }
  }

  lemma ShowsElement(images: seq<Image>, t: string, doc: Doc)
    ensures Shows(images, t, doc) <==> exists x :: x in images && x.tag == t && DocOf(x) == doc
  {
    if x :| x in images && x.tag == t && DocOf(x) == doc {
      var i :| 0 <= i < |images| && images[i] == x;
    }
  }

  lemma UniquePermuted(images: seq<Image>, sorted: seq<Image>)
    requires multiset(sorted) == multiset(images) && UniqueKeys(images)
    ensures UniqueKeys(sorted)
  {
    hide Key;
    forall i, k | 0 <= i < k < |sorted| ensures Key(sorted[i]) != Key(sorted[k]) {
      if Key(sorted[i]) == Key(sorted[k]) {
        var x, y := sorted[i], sorted[k];
        assert x in multiset(sorted) && y in multiset(sorted);
        var n :| 0 <= n < |images| && images[n] == x;
        var m :| 0 <= m < |images| && images[m] == y;
        assert n == m;
        Twice(sorted, i, k);
        Once(images, n);
      }
    }
  }

  /** An element at two places counts twice. */
  lemma Twice(s: seq<Image>, i: nat, k: nat)
    requires i < k < |s| && s[i] == s[k]
    ensures multiset(s)[s[i]] >= 2
  {
    assert s == s[..k] + [s[k]] + s[k + 1..];
    assert s[..k] == s[..i] + [s[i]] + s[i + 1..k];
  }

  lemma Once(s: seq<Image>, n: nat)
    requires UniqueKeys(s) && n < |s|
    ensures multiset(s)[s[n]] == 1
  {
    hide Key;
    assert s == s[..n] + [s[n]] + s[n + 1..];
    assert s[n] !in s[..n] && s[n] !in s[n + 1..];
  }

  lemma NamingDocs(previous: seq<Image>, incoming: seq<Image>, images: seq<Image>, t: string)
    requires UniqueKeys(previous) && UniqueKeys(images) && t != ""
    requires forall doc :: Shows(images, t, doc) <==>
      if ImageNaming(incoming, t).Some? then doc == ImageNaming(incoming, t).value else Shows(previous, t, doc)
    ensures TagDoc(images, t) == if ImageNaming(incoming, t).Some? then ImageNaming(incoming, t) else TagDoc(previous, t)
  {
    hide Shows, TagDoc, UniqueKeys, ImageNaming;
    TagDocShows(images, t);
    TagDocShows(previous, t);
    var expected := if ImageNaming(incoming, t).Some? then ImageNaming(incoming, t) else TagDoc(previous, t);
    assert forall doc :: TagDoc(images, t) == Some(doc) <==> expected == Some(doc);
    assert expected.Some? ==> TagDoc(images, t) == Some(expected.value);
    assert TagDoc(images, t).Some? ==> expected == Some(TagDoc(images, t).value);
  }

  // ---- a whole import ----

  /** mergeContainerArtifact: a new artifact is stored as its manifest describes it; a known one stays. */
  method MergeArtifact(s: Store, artifacts: map<string, Stored>, tags: map<string, string>, r: Report)
    returns (ok: bool, now: map<string, Stored>, named: map<string, string>)
    ensures ok <==> r.digest in artifacts || StoredArtifact(s, r).Some?
    ensures ok ==> now == (if r.digest in artifacts then artifacts else artifacts[r.digest := StoredArtifact(s, r).value])
    ensures ok ==> named == if r.tag == "" then tags else tags[r.tag := r.digest]
  {
    ok, now, named := true, artifacts, tags;
    if r.digest !in artifacts {
      var a := StoredArtifact(s, r);
      if a.None? {
        return false, artifacts, tags;
      }
      now := now[r.digest := a.value];
    }
    if r.tag != "" {
      named := named[r.tag := r.digest];
    }
  }

  /** The artifacts and tags after some reports. */
  ghost predicate Reported(s: Store, artifacts: map<string, Stored>, tags: map<string, string>, reports: seq<Report>,
                           now: map<string, Stored>, named: map<string, string>)
  {
    && (forall d | d in artifacts :: d in now && now[d] == artifacts[d])
    && (forall d :: Lookup(now, d) == Known(s, artifacts, reports, d))
    && (forall d | d in now :: d in artifacts || (Mentions(reports, d) && now[d].digest == d && s.isDigest(d)))
    && (forall x | x in reports :: x.digest in now)
    && (forall t | t in named :: named[t] in now || (t in tags && named[t] == tags[t]))
    && (forall t | t != "" :: (if t in named then Some(named[t]) else None) ==
          if ArtifactNaming(reports, t).Some? then ArtifactNaming(reports, t) else if t in tags then Some(tags[t]) else None)
    && ("" in named ==> "" in tags && named[""] == tags[""])
  }

  lemma ReportedMore(s: Store, artifacts: map<string, Stored>, tags: map<string, string>, reports: seq<Report>,
                     now: map<string, Stored>, named: map<string, string>, x: Report,
                     next: map<string, Stored>, names: map<string, string>)
    requires Reported(s, artifacts, tags, reports, now, named)
    requires x.digest in now || StoredArtifact(s, x).Some?
    requires next == if x.digest in now then now else now[x.digest := StoredArtifact(s, x).value]
    requires names == if x.tag == "" then named else named[x.tag := x.digest]
    ensures Reported(s, artifacts, tags, reports + [x], next, names)
  {
    hide ArtifactNaming, Mentions, Known;
    KnownMore(s, artifacts, reports, x);
    NamingMore(reports, x);
    MentionsAppended(reports, x);
  }

  lemma KnownMore(s: Store, artifacts: map<string, Stored>, reports: seq<Report>, x: Report)
    ensures forall d :: Known(s, artifacts, reports + [x], d) == KnownNext(s, artifacts, reports, x, d)
  {
    var more := reports + [x];
    forall d ensures Known(s, artifacts, more, d) == KnownNext(s, artifacts, reports, x, d) {
      assert more[|more| - 1] == x && more[..|more| - 1] == reports;
    }
  }

  function KnownNext(s: Store, artifacts: map<string, Stored>, reports: seq<Report>, x: Report, d: string): Option<Stored>
  {
    var earlier := Known(s, artifacts, reports, d);
    if earlier.Some? then earlier else if x.digest == d then StoredArtifact(s, x) else None
  }

  lemma NamingMore(reports: seq<Report>, x: Report)
    ensures forall t :: ArtifactNaming(reports + [x], t) == NamingNext(reports, x, t)
  {
    var more := reports + [x];
    forall t ensures ArtifactNaming(more, t) == NamingNext(reports, x, t) {
      assert more[|more| - 1] == x && more[..|more| - 1] == reports;
    }
  }

  function NamingNext(reports: seq<Report>, x: Report, t: string): Option<string>
  {
    if x.tag == t then Some(x.digest) else ArtifactNaming(reports, t)
  }

  /** mergeContainerArtifacts before its check. */
  method MergeReports(s: Store, artifacts: map<string, Stored>, tags: map<string, string>, incoming: seq<Image>)
    returns (ok: bool, now: map<string, Stored>, named: map<string, string>)
    ensures ok ==> Reported(s, artifacts, tags, Reports(incoming), now, named)
    ensures ok <==> Storable(s, artifacts, Reports(incoming))
  {
    hide Reported, StoredArtifact, Storable, Known;
    NoneToStore(s, artifacts);
    now, named := artifacts, tags;
    NothingReported(s, artifacts, tags);
    for n := 0 to |incoming|
      invariant Reported(s, artifacts, tags, Reports(incoming[..n]), now, named)
      invariant Storable(s, artifacts, Reports(incoming[..n]))
    {
      var reports := incoming[n].artifacts;
      ghost var before := Reports(incoming[..n]);
      assert incoming[..n + 1][..n] == incoming[..n] && before + reports[..0] == before;
      for k := 0 to |reports|
        invariant Reported(s, artifacts, tags, before + reports[..k], now, named)
        invariant Storable(s, artifacts, before + reports[..k])
      {
        var fine, next, names := MergeArtifact(s, now, named, reports[k]);
        StorableMore(s, artifacts, tags, before + reports[..k], now, named, reports[k]);
        assert before + reports[..k] + [reports[k]] == before + reports[..k + 1];
        if !fine {
          ReportedBefore(incoming, n, k);
          StorablePrefix(s, artifacts, before + reports[..k + 1], Reports(incoming));
          return false, now, named;
        }
        ReportedMore(s, artifacts, tags, before + reports[..k], now, named, reports[k], next, names);
        now, named := next, names;
      }
      assert reports[..|reports|] == reports;
    }
    assert incoming[..|incoming|] == incoming;
    ok := true;
  }

  lemma NoneToStore(s: Store, artifacts: map<string, Stored>)
    ensures Storable(s, artifacts, Reports([]))
  {
  }

  lemma StorableMore(s: Store, artifacts: map<string, Stored>, tags: map<string, string>, reports: seq<Report>,
                     now: map<string, Stored>, named: map<string, string>, x: Report)
    requires Reported(s, artifacts, tags, reports, now, named) && Storable(s, artifacts, reports)
    ensures Storable(s, artifacts, reports + [x]) <==> x.digest in now || StoredArtifact(s, x).Some?
  {
    hide Known, StoredArtifact, Mentions, ArtifactNaming;
    var more := reports + [x];
    KnownMore(s, artifacts, reports, x);
    assert more[..|reports| + 1] == more && more[|reports|] == x;
    assert Lookup(now, x.digest) == Known(s, artifacts, reports, x.digest);
    forall i | 0 <= i < |reports| ensures Known(s, artifacts, more[..i + 1], more[i].digest).Some? {
      assert more[..i + 1] == reports[..i + 1];
    }
  }

  lemma StorablePrefix(s: Store, artifacts: map<string, Stored>, reports: seq<Report>, all: seq<Report>)
    requires reports <= all
    ensures Storable(s, artifacts, all) ==> Storable(s, artifacts, reports)
  {
    hide Known;
    forall i | 0 <= i < |reports| && Storable(s, artifacts, all)
      ensures Known(s, artifacts, reports[..i + 1], reports[i].digest).Some?
    {
      assert all[..i + 1] == reports[..i + 1] && all[i] == reports[i];
    }
  }

  /** The reports up to some place of an import come first. */
  lemma {:induction false} ReportedBefore(incoming: seq<Image>, n: nat, k: nat)
    requires n < |incoming| && k < |incoming[n].artifacts|
    ensures Reports(incoming[..n]) + incoming[n].artifacts[..k + 1] <= Reports(incoming)
    decreases |incoming|
  {
    var m := |incoming| - 1;
    if n < m {
      ReportedBefore(incoming[..m], n, k);
      assert incoming[..m][..n] == incoming[..n];
    }
  }

  lemma NothingReported(s: Store, artifacts: map<string, Stored>, tags: map<string, string>)
    ensures Reported(s, artifacts, tags, Reports([]), artifacts, tags)
  {
  }

  /** validateStoredContainerGraph. */
  method Validate(artifacts: map<string, Stored>) returns (ok: bool)
    ensures ok <==> Closed(artifacts)
  {
    var rest := artifacts.Keys;
    while rest != {}
      invariant rest <= artifacts.Keys
      invariant forall d | d in artifacts && d !in rest :: ChildrenOk(artifacts, d)
      decreases |rest|
    {
      var d :| d in rest;
      var children := artifacts[d].manifests;
      for i := 0 to |children|
        invariant forall k | 0 <= k < i :: ChildOk(artifacts, children[k])
      {
        if !ChildOk(artifacts, children[i]) {
          assert children[i] in artifacts[d].manifests;
          return false;
        }
      }
      rest := rest - {d};
    }
    ok := true;
  }

  predicate ChildOk(artifacts: map<string, Stored>, c: Child)
  {
    c.digest in artifacts && artifacts[c.digest].size == c.size && artifacts[c.digest].mediaType == c.mediaType
  }

  predicate ChildrenOk(artifacts: map<string, Stored>, d: string)
    requires d in artifacts
  {
    forall k | 0 <= k < |artifacts[d].manifests| :: ChildOk(artifacts, artifacts[d].manifests[k])
  }

  /** The tags without those an import's images take over. */
  method TakeTags(tags: map<string, string>, incoming: seq<Image>) returns (left: map<string, string>)
    ensures forall t :: t in left <==> t in tags && ImageNaming(incoming, t).None?
    ensures forall t | t in left :: left[t] == tags[t]
  {
    left := tags;
    for n := 0 to |incoming|
      invariant forall t :: t in left <==> t in tags && ImageNaming(incoming[..n], t).None?
      invariant forall t | t in left :: left[t] == tags[t]
    {
      OneMore(incoming, n);
      ghost var was := left;
      left := left - {incoming[n].tag};
      forall t ensures t in left <==> t in tags && ImageNaming(incoming[..n + 1], t).None? {
        assert t in was <==> t in tags && ImageNaming(incoming[..n], t).None?;
        assert ImageNaming(incoming[..n + 1], t) == NextNaming(incoming, n, t);
      }
    }
    assert incoming[..|incoming|] == incoming;
  }

  /** A repository's index as the high side keeps it. */
  class Index {
    var images: seq<Image>
    var artifacts: map<string, Stored>
    var tags: map<string, string>

    constructor ()
      ensures Model() == Repo([], map[], map[])
    {
      images, artifacts, tags := [], map[], map[];
    }

    function Model(): Repo
      reads this
    {
      Repo(images, artifacts, tags)
    }

    /** mergeContainerRepo: all of an import, or nothing of it. */
    method Import(s: Store, incoming: seq<Image>) returns (ok: bool)
      requires RepoOk(s, Model())
      modifies this
      ensures RepoOk(s, Model())
      ensures if ok then Merged(s, old(Model()), incoming, Model()) else Model() == old(Model())
      ensures ok <==> Accepts(s, old(Model()), incoming)
    {
      hide Storable, Complete, Closed, Known;
      var left := TakeTags(tags, incoming);
      var fine, now, named := MergeReports(s, artifacts, left, incoming);
      if !fine {
        return false;
      }
      ok := Validate(now);
      ClosedComplete(s, artifacts, left, Reports(incoming), now, named);
      if !ok {
        return;
      }
      var merged := MergeImages(images, incoming);
      MergedOk(s, Model(), incoming, left, Repo(merged, now, named));
      images, artifacts, tags := merged, now, named;
    }

    /** A sequence of imports is a history of the repository. */
    method ImportAll(s: Store, imports: seq<seq<Image>>) returns (oks: seq<bool>, ghost states: seq<Repo>)
      requires RepoOk(s, Model())
      modifies this
      ensures History(s, states, imports, oks) && states[0] == old(Model()) && states[|imports|] == Model()
    {
      hide RepoOk, Merged;
      oks, states := [], [Model()];
      for i := 0 to |imports|
        invariant History(s, states, imports[..i], oks) && states[0] == old(Model()) && states[i] == Model()
        invariant RepoOk(s, Model())
      {
        var ok := Import(s, imports[i]);
        HistoryMore(s, states, imports[..i], oks, imports[i], ok, Model());
        assert imports[..i] + [imports[i]] == imports[..i + 1];
        oks, states := oks + [ok], states + [Model()];
      }
      assert imports[..|imports|] == imports;
    }
  }

  lemma ClosedComplete(s: Store, artifacts: map<string, Stored>, tags: map<string, string>, reports: seq<Report>,
                       now: map<string, Stored>, named: map<string, string>)
    requires Reported(s, artifacts, tags, reports, now, named)
    ensures Closed(now) <==> Complete(s, artifacts, reports)
  {
    hide Known, Mentions, ArtifactNaming;
    forall d ensures Lookup(now, d) == Known(s, artifacts, reports, d) {
    }
    if Closed(now) {
      forall d, c | Known(s, artifacts, reports, d).Some? && c in Known(s, artifacts, reports, d).value.manifests
        ensures var child := Known(s, artifacts, reports, c.digest);
          child.Some? && child.value.size == c.size && child.value.mediaType == c.mediaType
      {
        assert Lookup(now, d).Some? && Lookup(now, c.digest).Some?;
      }
    }
    if Complete(s, artifacts, reports) {
      forall d, c | d in now && c in now[d].manifests
        ensures c.digest in now && now[c.digest].size == c.size && now[c.digest].mediaType == c.mediaType
      {
        assert Lookup(now, d).Some? && Lookup(now, c.digest) == Known(s, artifacts, reports, c.digest);
      }
    }
  }

  lemma MergedOk(s: Store, r: Repo, incoming: seq<Image>, left: map<string, string>, q: Repo)
    requires RepoOk(s, r) && UniqueKeys(q.images) && Closed(q.artifacts)
    requires forall d :: Serves(q.images, d) <==> Serves(r.images, d) || Serves(incoming, d)
    requires forall t | t != "" ::
      TagDoc(q.images, t) == if ImageNaming(incoming, t).Some? then ImageNaming(incoming, t) else TagDoc(r.images, t)
    requires forall t :: t in left <==> t in r.tags && ImageNaming(incoming, t).None?
    requires forall t | t in left :: left[t] == r.tags[t]
    requires Reported(s, r.artifacts, left, Reports(incoming), q.artifacts, q.tags)
    requires Observed(r.images + incoming, q.images) && From(r.images + incoming, q.images)
    ensures Merged(s, r, incoming, q)
  {
    hide UniqueKeys, Closed, TagDoc, ImageNaming, ArtifactNaming, Serves, Reports, Known, Lookup, Observed, Mentions, From;
  }

  // ---- every history of imports ----

  /** The states a repository goes through: each import either merges or changes nothing. */
  ghost predicate History(s: Store, states: seq<Repo>, imports: seq<seq<Image>>, oks: seq<bool>)
  {
    && |states| == |imports| + 1 && |oks| == |imports| && RepoOk(s, states[0])
    && forall i | 0 <= i < |imports| :: Turn(s, states[i], imports[i], oks[i], states[i + 1])
  }

  ghost predicate Turn(s: Store, r: Repo, incoming: seq<Image>, ok: bool, q: Repo)
  {
    if ok then Merged(s, r, incoming, q) else q == r
  }

  lemma HistoryMore(s: Store, states: seq<Repo>, imports: seq<seq<Image>>, oks: seq<bool>, incoming: seq<Image>, ok: bool, q: Repo)
    requires History(s, states, imports, oks) && Turn(s, states[|imports|], incoming, ok, q)
    ensures History(s, states + [q], imports + [incoming], oks + [ok])
  {
    hide RepoOk, Merged;
  }

  lemma HistoryInit(s: Store, states: seq<Repo>, imports: seq<seq<Image>>, oks: seq<bool>)
    requires History(s, states, imports, oks) && imports != []
    ensures var n := |imports| - 1;
      && History(s, states[..n + 1], imports[..n], oks[..n])
      && Turn(s, states[n], imports[n], oks[n], states[n + 1])
  {
    hide RepoOk, Merged;
    var n := |imports| - 1;
    forall i | 0 <= i < n
      ensures Turn(s, states[..n + 1][i], imports[..n][i], oks[..n][i], states[..n + 1][i + 1])
    {
      assert Turn(s, states[i], imports[i], oks[i], states[i + 1]);
    }
  }

  /** Some import that succeeded has an image that serves the digest. */
  ghost predicate Imported(imports: seq<seq<Image>>, oks: seq<bool>, d: string)
    requires |oks| == |imports|
  {
    exists i :: 0 <= i < |imports| && oks[i] && Serves(imports[i], d)
  }

  /** Throughout a history: the repository stays consistent (image keys unique, artifacts closed under
      their children, every artifact tag pointing to a stored artifact), artifact records only grow,
      and the digests its images serve are exactly those it started with or ever imported. */
  lemma {:induction false} NothingIsLost(s: Store, states: seq<Repo>, imports: seq<seq<Image>>, oks: seq<bool>)
    requires History(s, states, imports, oks)
    ensures var q := states[|imports|];
      && RepoOk(s, q)
      && (forall d | d in states[0].artifacts :: d in q.artifacts && q.artifacts[d] == states[0].artifacts[d])
      && (forall d :: Serves(q.images, d) <==> Serves(states[0].images, d) || Imported(imports, oks, d))
    decreases |imports|
  {
    hide RepoOk, Serves;
    if imports != [] {
      var n := |imports| - 1;
      HistoryInit(s, states, imports, oks);
      NothingIsLost(s, states[..n + 1], imports[..n], oks[..n]);
      forall d ensures Imported(imports, oks, d) <==> Imported(imports[..n], oks[..n], d) || (oks[n] && Serves(imports[n], d)) {
        ImportedMore(imports, oks, d);
      }
    }
  }

  lemma ImportedMore(imports: seq<seq<Image>>, oks: seq<bool>, d: string)
    requires |oks| == |imports| > 0
    ensures var n := |imports| - 1;
      Imported(imports, oks, d) <==> Imported(imports[..n], oks[..n], d) || (oks[n] && Serves(imports[n], d))
  {
    hide Serves;
    var n := |imports| - 1;
    if Imported(imports[..n], oks[..n], d) {
      var i :| 0 <= i < n && oks[..n][i] && Serves(imports[..n][i], d);
      assert oks[i] && Serves(imports[i], d);
    }
    if Imported(imports, oks, d) && !(oks[n] && Serves(imports[n], d)) {
      var i :| 0 <= i < |imports| && oks[i] && Serves(imports[i], d);
      assert oks[..n][i] && Serves(imports[..n][i], d);
    }
  }

  /** Every digest an image of a successful import was served under resolves ever after, to itself. */
  lemma ServedForever(s: Store, states: seq<Repo>, imports: seq<seq<Image>>, oks: seq<bool>, i: nat, img: Image)
    requires History(s, states, imports, oks) && i < |imports| && oks[i] && img in imports[i] && s.isDigest(Served(img))
    ensures var doc := Find(s, states[|imports|], Served(img));
      doc.Some? && doc.value.digest == Served(img)
  {
    hide RepoOk;
    NothingIsLost(s, states, imports, oks);
    var k :| 0 <= k < |imports[i]| && imports[i][k] == img;
    assert Serves(imports[i], Served(img));
    assert Imported(imports, oks, Served(img));
    ServedResolves(s, states[|imports|], Served(img));
  }

  /** Every image has the manifest that its served digest stands for, as a content-addressed index has. */
  ghost predicate Told(of: string -> string, images: seq<Image>)
  {
    forall x | x in images :: x.digest == of(Served(x))
  }

  ghost predicate AllTold(of: string -> string, imports: seq<seq<Image>>, oks: seq<bool>)
    requires |oks| == |imports|
  {
    forall i | 0 <= i < |imports| && oks[i] :: Told(of, imports[i])
  }

  lemma {:induction false} ToldStays(s: Store, states: seq<Repo>, imports: seq<seq<Image>>, oks: seq<bool>, of: string -> string)
    requires History(s, states, imports, oks) && Told(of, states[0].images) && AllTold(of, imports, oks)
    ensures Told(of, states[|imports|].images)
    decreases |imports|
  {
    hide RepoOk, Serves, Served;
    if imports != [] {
      var n := |imports| - 1;
      HistoryInit(s, states, imports, oks);
      ToldStays(s, states[..n + 1], imports[..n], oks[..n], of);
      if oks[n] {
        ToldMore(of, states[n].images, imports[n], states[n + 1].images);
      }
    }
  }

  lemma ToldMore(of: string -> string, images: seq<Image>, incoming: seq<Image>, merged: seq<Image>)
    requires Told(of, images) && Told(of, incoming) && From(images + incoming, merged)
    ensures Told(of, merged)
  {
    forall x | x in merged ensures x.digest == of(Served(x)) {
      var y :| y in images + incoming && SameContent(x, y);
      assert y in images || y in incoming;
    }
  }

  /** The manifest digest of an image resolves ever after too, kept with an index or not, as long as no
      image of the history is served under the same digest with another manifest. */
  lemma ManifestForever(s: Store, states: seq<Repo>, imports: seq<seq<Image>>, oks: seq<bool>, of: string -> string, i: nat, img: Image)
    requires History(s, states, imports, oks) && Told(of, states[0].images) && AllTold(of, imports, oks)
    requires i < |imports| && oks[i] && img in imports[i] && s.isDigest(img.digest)
    ensures var doc := Find(s, states[|imports|], img.digest);
      doc.Some? && doc.value.digest == img.digest
  {
    hide RepoOk, Served;
    NothingIsLost(s, states, imports, oks);
    ToldStays(s, states, imports, oks, of);
    var k :| 0 <= k < |imports[i]| && imports[i][k] == img;
    assert Serves(imports[i], Served(img));
    assert Imported(imports, oks, Served(img));
    var q := states[|imports|];
    var n :| 0 <= n < |q.images| && Served(q.images[n]) == Served(img);
    assert q.images[n] in q.images;
    FindsManifest(q.images, n);
    ArtifactDigest(s, q, img.digest);
  }

  lemma {:induction false} FindsManifest(images: seq<Image>, n: nat)
    requires n < |images|
    ensures var doc := FindImage(images, images[n].digest, true);
      doc.Some? && doc.value.digest == images[n].digest
  {
    if n > 0 {
      FindsManifest(images[1..], n - 1);
    }
  }

  lemma ArtifactDigest(s: Store, r: Repo, d: string)
    requires RepoOk(s, r)
    ensures d in r.artifacts ==> r.artifacts[d].digest == d
  {
  }

  /** What the newest successful import that names a tag says about it. */
  function Newest(s: Store, q: Repo, imports: seq<seq<Image>>, oks: seq<bool>, t: string): Option<Doc>
    requires |oks| == |imports|
  {
    if imports == [] then None
    else
      var n := |imports| - 1;
      if oks[n] && Naming(s, q, imports[n], t).Some? then Naming(s, q, imports[n], t)
      else Newest(s, q, imports[..n], oks[..n], t)
  }

  /** A tag resolves to what the newest import naming it said, an artifact winning over an image of the
      same import; a tag no import named resolves as it did at the start. */
  lemma {:induction false} TagIsNewest(s: Store, states: seq<Repo>, imports: seq<seq<Image>>, oks: seq<bool>, t: string)
    requires History(s, states, imports, oks) && t != "" && !s.isDigest(t) && !s.isDigest("")
    ensures var q := states[|imports|];
      var newest := Newest(s, q, imports, oks, t);
      Find(s, q, t) == if newest.Some? then newest else Find(s, states[0], t)
    decreases |imports|
  {
    hide RepoOk, Find, Naming, Merged;
    if imports != [] {
      var n := |imports| - 1;
      var r, q := states[n], states[n + 1];
      HistoryInit(s, states, imports, oks);
      NothingIsLost(s, states[..n + 1], imports[..n], oks[..n]);
      TagIsNewest(s, states[..n + 1], imports[..n], oks[..n], t);
      if oks[n] {
        TagResolves(s, r, imports[n], q, t);
        NewestStays(s, states, imports, oks, t, n);
      }
    }
  }

  /** The i-th image of an import is the last with a tag. */
  ghost predicate LastNamed(images: seq<Image>, i: nat, t: string)
    requires i < |images|
  {
    images[i].tag == t && forall k | i < k < |images| :: images[k].tag != t
  }

  /** No image of an import has a tag, and no artifact of one. */
  ghost predicate Silent(images: seq<Image>, t: string)
  {
    NoArtifact(images, t) && forall i | 0 <= i < |images| :: images[i].tag != t
  }

  ghost predicate NoArtifact(images: seq<Image>, t: string)
  {
    forall i, k | 0 <= i < |images| && 0 <= k < |images[i].artifacts| :: images[i].artifacts[k].tag != t
  }

  /** What a pull by tag gets. When the newest successful import that says anything of a tag names it last
      with an image, and with no artifact, the tag resolves to the index the image is kept with, or, if
      none is, to its manifest. */
  lemma TagServesImage(s: Store, states: seq<Repo>, imports: seq<seq<Image>>, oks: seq<bool>, t: string, n: nat, i: nat)
    requires History(s, states, imports, oks) && t != "" && !s.isDigest(t) && !s.isDigest("")
    requires n < |imports| && oks[n] && i < |imports[n]| && LastNamed(imports[n], i, t) && NoArtifact(imports[n], t)
    requires forall k | n < k < |imports| && oks[k] :: Silent(imports[k], t)
    ensures var img, doc := imports[n][i], Find(s, states[|imports|], t);
      doc == Some(if img.index.None? then Doc(img.digest, img.mediaType)
                  else Doc(img.index.value.digest, img.index.value.mediaType))
  {
    hide RepoOk, Find, Merged;
    TagIsNewest(s, states, imports, oks, t);
    LastNaming(imports[n], i, t);
    NoneNaming(imports[n], t);
    NewestAt(s, states[|imports|], imports, oks, t, n);
  }

  /** When that import has an artifact with the tag, it resolves to the last of these. */
  lemma TagServesArtifact(s: Store, states: seq<Repo>, imports: seq<seq<Image>>, oks: seq<bool>, t: string, n: nat, x: Report)
    requires History(s, states, imports, oks) && t != "" && !s.isDigest(t) && !s.isDigest("")
    requires n < |imports| && oks[n] && LastReport(imports[n], x, t)
    requires forall k | n < k < |imports| && oks[k] :: Silent(imports[k], t)
    ensures var q := states[|imports|];
      x.digest in q.artifacts && Find(s, q, t) == Some(Doc(x.digest, q.artifacts[x.digest].mediaType))
  {
    hide RepoOk, Find, Merged;
    TagIsNewest(s, states, imports, oks, t);
    LastReported(imports[n], x, t);
    ReportStored(s, states, imports, oks, n, x);
    NewestAt(s, states[|imports|], imports, oks, t, n);
  }

  /** The last artifact with a tag, in the order of the images and of the artifacts of each. */
  ghost predicate LastReport(images: seq<Image>, x: Report, t: string)
  {
    exists i: nat, k: nat :: i < |images| && LastIn(images[i].artifacts, k, x, t) && NoArtifact(images[i + 1..], t)
  }

  ghost predicate LastIn(reports: seq<Report>, k: nat, x: Report, t: string)
  {
    k < |reports| && reports[k] == x && x.tag == t && forall m | k < m < |reports| :: reports[m].tag != t
  }

  lemma LastReported(images: seq<Image>, x: Report, t: string)
    requires LastReport(images, x, t)
    ensures x in Reports(images) && ArtifactNaming(Reports(images), t) == Some(x.digest)
  {
    hide NoArtifact, LastIn;
    var i: nat, k: nat :| i < |images| && LastIn(images[i].artifacts, k, x, t) && NoArtifact(images[i + 1..], t);
    LastNamedFrom(images, i, k, x, t);
  }

  lemma {:induction false} LastNamedFrom(images: seq<Image>, i: nat, k: nat, x: Report, t: string)
    requires i < |images| && LastIn(images[i].artifacts, k, x, t) && NoArtifact(images[i + 1..], t)
    ensures x in Reports(images) && ArtifactNaming(Reports(images), t) == Some(x.digest)
  {
    hide ArtifactNaming, LastIn;
    var n := |images| - 1;
    var before, last := Reports(images[..n]), images[n].artifacts;
    NamingAppend(before, last, t);
    if i == n {
      LastOf(last, k, x, t);
    } else {
      NoneAfter(images, i, t);
      LastNamedFrom(images[..n], i, k, x, t);
      NotNamed(last, t);
    }
  }

  lemma NoneAfter(images: seq<Image>, i: nat, t: string)
    requires i < |images| - 1 && NoArtifact(images[i + 1..], t)
    ensures var n := |images| - 1;
      NoArtifact(images[..n][i + 1..], t) && forall m | 0 <= m < |images[n].artifacts| :: images[n].artifacts[m].tag != t
  {
    var n := |images| - 1;
    assert images[..n][i + 1..] == images[i + 1..][..n - i - 1];
    assert images[i + 1..][n - i - 1] == images[n];
  }

  lemma {:induction false} NamingAppend(before: seq<Report>, last: seq<Report>, t: string)
    ensures ArtifactNaming(before + last, t) ==
      if ArtifactNaming(last, t).Some? then ArtifactNaming(last, t) else ArtifactNaming(before, t)
  {
    if last != [] {
      var n := |last| - 1;
      assert (before + last)[..|before| + n] == before + last[..n];
      NamingAppend(before, last[..n], t);
    } else {
      assert before + last == before;
    }
  }

  lemma {:induction false} LastOf(reports: seq<Report>, k: nat, x: Report, t: string)
    requires LastIn(reports, k, x, t)
    ensures x in reports && ArtifactNaming(reports, t) == Some(x.digest)
  {
    if k < |reports| - 1 {
      LastOf(reports[..|reports| - 1], k, x, t);
    }
  }

  lemma {:induction false} NotNamed(reports: seq<Report>, t: string)
    requires forall m | 0 <= m < |reports| :: reports[m].tag != t
    ensures ArtifactNaming(reports, t) == None
  {
    if reports != [] {
      NotNamed(reports[..|reports| - 1], t);
    }
  }

  lemma {:induction false} NoneNaming(images: seq<Image>, t: string)
    requires NoArtifact(images, t)
    ensures ArtifactNaming(Reports(images), t) == None
  {
    if images != [] {
      var n := |images| - 1;
      NoneNaming(images[..n], t);
      NamingAppend(Reports(images[..n]), images[n].artifacts, t);
      NotNamed(images[n].artifacts, t);
    } else {
      NotNamed(Reports(images), t);
    }
  }

  lemma {:induction false} LastNaming(images: seq<Image>, i: nat, t: string)
    requires i < |images| && LastNamed(images, i, t)
    ensures ImageNaming(images, t) == Some(DocOf(images[i]))
  {
    if i < |images| - 1 {
      LastNaming(images[..|images| - 1], i, t);
    }
  }

  lemma {:induction false} SilentNaming(images: seq<Image>, t: string)
    requires forall i | 0 <= i < |images| :: images[i].tag != t
    ensures ImageNaming(images, t) == None
  {
    if images != [] {
      SilentNaming(images[..|images| - 1], t);
    }
  }

  lemma {:induction false} NewestAt(s: Store, q: Repo, imports: seq<seq<Image>>, oks: seq<bool>, t: string, n: nat)
    requires |oks| == |imports| && n < |imports| && oks[n] && Naming(s, q, imports[n], t).Some?
    requires forall k | n < k < |imports| && oks[k] :: Silent(imports[k], t)
    ensures Newest(s, q, imports, oks, t) == Naming(s, q, imports[n], t)
  {
    var last := |imports| - 1;
    if n < last {
      NewestAt(s, q, imports[..last], oks[..last], t, n);
      if oks[last] {
        NoneNaming(imports[last], t);
        SilentNaming(imports[last], t);
      }
    }
  }

  lemma ReportStored(s: Store, states: seq<Repo>, imports: seq<seq<Image>>, oks: seq<bool>, n: nat, x: Report)
    requires History(s, states, imports, oks) && n < |imports| && oks[n] && x in Reports(imports[n])
    ensures x.digest in states[|imports|].artifacts
  {
    hide RepoOk;
    assert Turn(s, states[n], imports[n], oks[n], states[n + 1]);
    ArtifactsGrow(s, states, imports, oks, n + 1, |imports|);
  }

  /** What earlier imports said of a tag does not change when later ones add artifacts. */
  lemma {:induction false} NewestStays(s: Store, states: seq<Repo>, imports: seq<seq<Image>>, oks: seq<bool>, t: string, k: nat)
    requires History(s, states, imports, oks) && imports != [] && k < |imports|
    ensures Newest(s, states[|imports| - 1], imports[..k], oks[..k], t) == Newest(s, states[|imports|], imports[..k], oks[..k], t)
    decreases k
  {
    hide RepoOk, Naming, Merged;
    if k > 0 {
      var n := |imports|;
      assert imports[..k][..k - 1] == imports[..k - 1] && oks[..k][..k - 1] == oks[..k - 1];
      NewestStays(s, states, imports, oks, t, k - 1);
      if oks[k - 1] {
        ArtifactsGrow(s, states, imports, oks, k, n - 1);
        ArtifactsGrow(s, states, imports, oks, n - 1, n);
        assert Turn(s, states[k - 1], imports[k - 1], oks[k - 1], states[k]);
        NamingStays(s, states[k - 1], imports[k - 1], states[k], states[n - 1], states[n], t);
      }
    }
  }

  lemma NamingStays(s: Store, r: Repo, incoming: seq<Image>, after: Repo, p: Repo, q: Repo, t: string)
    requires Merged(s, r, incoming, after)
    requires forall d | d in after.artifacts :: d in p.artifacts && p.artifacts[d] == after.artifacts[d]
    requires forall d | d in p.artifacts :: d in q.artifacts && q.artifacts[d] == p.artifacts[d]
    ensures Naming(s, p, incoming, t) == Naming(s, q, incoming, t)
  {
    hide RepoOk, Serves, TagDoc, TagAfter;
    if ArtifactNaming(Reports(incoming), t).Some? {
      NamedReported(Reports(incoming), t);
    }
  }

  lemma {:induction false} ArtifactsGrow(s: Store, states: seq<Repo>, imports: seq<seq<Image>>, oks: seq<bool>, i: nat, k: nat)
    requires History(s, states, imports, oks) && i <= k < |states|
    ensures forall d | d in states[i].artifacts :: d in states[k].artifacts && states[k].artifacts[d] == states[i].artifacts[d]
    decreases k - i
  {
    hide RepoOk, Serves, TagDoc, TagAfter;
    if i < k {
      ArtifactsGrow(s, states, imports, oks, i, k - 1);
      assert Turn(s, states[k - 1], imports[k - 1], oks[k - 1], states[k]);
    }
  }

  /** The images of the imports that succeeded, in order, after those there were at the start. */
  function Seen(first: seq<Image>, imports: seq<seq<Image>>, oks: seq<bool>): seq<Image>
    requires |oks| == |imports|
  {
    if imports == [] then first
    else
      var n := |imports| - 1;
      Seen(first, imports[..n], oks[..n]) + (if oks[n] then imports[n] else [])
  }

  /** After any history every image is one there was or an import that succeeded brought, apart from its tag
      and artifacts, and no artifact is kept with an image that was never seen with one of its served digest. */
  lemma {:induction false} NothingInvented(s: Store, states: seq<Repo>, imports: seq<seq<Image>>, oks: seq<bool>)
    requires History(s, states, imports, oks)
    ensures From(Seen(states[0].images, imports, oks), states[|imports|].images)
    decreases |imports|
  {
    hide RepoOk, From, Serves;
    if imports == [] {
      FromItself(states[0].images);
    } else {
      var n := |imports| - 1;
      HistoryInit(s, states, imports, oks);
      NothingInvented(s, states[..n + 1], imports[..n], oks[..n]);
      var seen := Seen(states[0].images, imports[..n], oks[..n]);
      if oks[n] {
        FromTrans(seen, states[n].images, imports[n], states[n + 1].images);
      } else {
        assert seen + [] == seen;
      }
    }
  }

  /** Throughout a history an image keeps every artifact it was ever seen with, for as long as nothing
      moves its key to another digest. */
  lemma {:induction false} ObservationsLast(s: Store, states: seq<Repo>, imports: seq<seq<Image>>, oks: seq<bool>)
    requires History(s, states, imports, oks)
    ensures Observed(Seen(states[0].images, imports, oks), states[|imports|].images)
    decreases |imports|
  {
    hide RepoOk, Observed, Serves, TagDoc, TagAfter, Known, Lookup;
    if imports == [] {
      NothingObserved(states[0].images);
      assert states[0].images + [] == states[0].images;
    } else {
      var n := |imports| - 1;
      HistoryInit(s, states, imports, oks);
      ObservationsLast(s, states[..n + 1], imports[..n], oks[..n]);
      NothingIsLost(s, states[..n + 1], imports[..n], oks[..n]);
      var seen := Seen(states[0].images, imports[..n], oks[..n]);
      if oks[n] {
        assert UniqueKeys(states[n].images) by { Unique(s, states[n]); }
        ObservedThrough(seen, states[n].images, imports[n], states[n + 1].images);
      } else {
        assert seen + [] == seen;
      }
    }
  }

  lemma Unique(s: Store, r: Repo)
    requires RepoOk(s, r)
    ensures UniqueKeys(r.images)
  {
  }

  lemma ObservedThrough(all: seq<Image>, images: seq<Image>, incoming: seq<Image>, after: seq<Image>)
    requires Observed(all, images) && UniqueKeys(images) && Observed(images + incoming, after)
    ensures Observed(all + incoming, after)
  {
    hide Key, Served, UniqueKeys, Current, CarriedBy;
    var now, last := all + incoming, images + incoming;
    forall i | 0 <= i < |now| && Current(now, i) ensures Carries(after, now[i]) {
      if i < |all| {
        CurrentBefore(all, incoming, i);
        var n :| 0 <= n < |images| && CarriedBy(images[n], all[i]);
        CurrentCarried(all, images, incoming, i, n);
        assert last[n] == images[n] && now[i] == all[i];
        CarriesCarried(after, images[n], all[i]);
      } else {
        CurrentIncoming(all, images, incoming, i - |all|);
        assert last[|images| + i - |all|] == now[i];
      }
    }
  }

  lemma CurrentBefore(all: seq<Image>, more: seq<Image>, i: nat)
    requires i < |all| && Current(all + more, i)
    ensures Current(all, i)
  {
    hide Key, Served;
    forall k | i < k < |all| && Key(all[k]) == Key(all[i]) ensures Served(all[k]) == Served(all[i]) {
      assert (all + more)[k] == all[k];
    }
  }

  lemma CurrentCarried(all: seq<Image>, images: seq<Image>, incoming: seq<Image>, i: nat, n: nat)
    requires UniqueKeys(images) && i < |all| && n < |images| && Current(all + incoming, i) && CarriedBy(images[n], all[i])
    ensures Current(images + incoming, n)
  {
    hide Key, Served;
    var now, last := all + incoming, images + incoming;
    forall k | n < k < |last| && Key(last[k]) == Key(last[n]) ensures Served(last[k]) == Served(last[n]) {
      assert k >= |images|;
      assert now[|all| + k - |images|] == last[k];
    }
  }

  lemma CurrentIncoming(all: seq<Image>, images: seq<Image>, incoming: seq<Image>, i: nat)
    requires i < |incoming| && Current(all + incoming, |all| + i)
    ensures Current(images + incoming, |images| + i)
  {
    hide Key, Served;
    var now, last := all + incoming, images + incoming;
    forall k | |images| + i < k < |last| && Key(last[k]) == Key(last[|images| + i])
      ensures Served(last[k]) == Served(last[|images| + i])
    {
      assert now[|all| + k - |images|] == last[k];
    }
  }

  lemma CarriesCarried(images: seq<Image>, x: Image, y: Image)
    requires Carries(images, x) && CarriedBy(x, y)
    ensures Carries(images, y)
  {
    hide Key, Served;
    var i :| 0 <= i < |images| && CarriedBy(images[i], x);
    assert CarriedBy(images[i], y);
  }
}
