/** The landing directory: files by name, the operations the catcher uses on them, and the names it
    forms. Every operation is atomic; a crash can fall between any two. */
module Landing {
  import opened Bytes

  /** The resume-state sidecar. Its bitset is None when it is not valid base64. */
  datatype PartialState = PartialState(
    name: Data, fileSize: int, sha256: Data, blockCount: int,
    written: int, doneCount: int, blocksDone: Option<Data>)

  /** A sidecar's content is None when it cannot be decoded. */
  datatype File = Plain(bytes: Data) | Sidecar(state: Option<PartialState>, mtime: int)

  type Dir = map<Data, File>

  /** A directory with every state it went through, oldest first: the states a crash can leave. */
  datatype Disk = Disk(files: Dir, past: seq<Dir>)

  function Next(d: Disk, files: Dir): Disk { Disk(files, d.past + [files]) }

  // ---- names ----

  function Ascii(s: string): (b: Data)
    ensures |b| == |s|
  {
    seq(|s|, i requires 0 <= i < |s| => if s[i] < 256 as char then s[i] as int else 0)
  }

  predicate HasSuffix(s: Data, t: Data)
  {
    |t| <= |s| && s[|s| - |t|..] == t
  }

  function TrimSuffix(s: Data, t: Data): Data
    requires HasSuffix(s, t)
  {
    s[..|s| - |t|]
  }

  const PART: Data := Ascii(".udp-part")
  const STATE: Data := Ascii(".udp-part.json")
  const TEMP: Data := Ascii(".udp-")
  const SIG: Data := Ascii(".manifest.json.sig")
  const MANIFEST: Data := Ascii(".manifest.json")
  const ARCHIVE: Data := Ascii(".tar.gz")

  function PartPath(name: Data): Data { name + PART }

  function StatePath(name: Data): Data { name + STATE }

  predicate Digits(s: Data) { s != [] && forall i | 0 <= i < |s| :: 0x30 <= s[i] <= 0x39 }

  /** os.CreateTemp's "<name>.udp-*": the star becomes a decimal number. */
  function TempPath(name: Data, rnd: Data): Data { name + TEMP + rnd }

  ghost predicate IsTemp(path: Data)
  {
    exists name, rnd :: Digits(rnd) && path == TempPath(name, rnd)
  }

  /** bundleFileSizeLimit: only the three files of a bundle have one. */
  function SizeLimit(name: Data): Option<nat>
  {
    if HasSuffix(name, SIG) then Some(4096)
    else if HasSuffix(name, MANIFEST) then Some(67_108_864)
    else if HasSuffix(name, ARCHIVE) then Some(68_719_476_736)
    else None
  }

  /** The names the importer looks for. */
  predicate IsFinal(path: Data) { SizeLimit(path).Some? }

  lemma LastBytes()
    ensures |PART| == 9 && PART[8] == 0x74
    ensures |STATE| == 14 && STATE[1] == 0x75 && STATE[13] == 0x6e
    ensures |SIG| == 18 && SIG[17] == 0x67
    ensures |MANIFEST| == 14 && MANIFEST[1] == 0x6d && MANIFEST[13] == 0x6e
    ensures |ARCHIVE| == 7 && ARCHIVE[6] == 0x7a
  {
  }

  lemma SuffixByte(s: Data, t: Data, i: nat)
    requires HasSuffix(s, t) && i < |t|
    ensures s[|s| - |t| + i] == t[i]
  {
    assert s[|s| - |t|..][i] == t[i];
  }

  lemma FinalBytes(path: Data)
    requires IsFinal(path)
    ensures path != [] && path[|path| - 1] in {0x67, 0x6e, 0x7a}
    ensures path[|path| - 1] == 0x6e ==> |path| >= 14 && path[|path| - 13] == 0x6d
  {
    hide Ascii, PART, STATE, SIG, MANIFEST, ARCHIVE, TEMP;
    LastBytes();
    if HasSuffix(path, SIG) {
      SuffixByte(path, SIG, 17);
    } else if HasSuffix(path, MANIFEST) {
      SuffixByte(path, MANIFEST, 13);
      SuffixByte(path, MANIFEST, 1);
    } else {
      SuffixByte(path, ARCHIVE, 6);
    }
  }

  /** The catcher's private names never collide with a bundle file or, across kinds, with each other. */
  lemma NamesApart(path: Data, a: Data, b: Data)
    requires IsTemp(path)
    ensures !IsFinal(path) && !IsFinal(PartPath(a)) && !IsFinal(StatePath(a))
    ensures path != PartPath(a) && path != StatePath(a) && PartPath(a) != StatePath(b)
    ensures PartPath(a) == PartPath(b) ==> a == b
    ensures StatePath(a) == StatePath(b) ==> a == b
  {
    hide Ascii, PART, STATE, SIG, MANIFEST, ARCHIVE, TEMP, SizeLimit;
    LastBytes();
    var name, rnd :| Digits(rnd) && path == TempPath(name, rnd);
    assert path[|path| - 1] == rnd[|rnd| - 1];
    assert PartPath(a)[|PartPath(a)| - 1] == 0x74;
    assert StatePath(a)[|StatePath(a)| - 1] == 0x6e && StatePath(a)[|StatePath(a)| - 13] == 0x75;
    assert StatePath(b)[|StatePath(b)| - 1] == 0x6e;
    if IsFinal(path) { FinalBytes(path); }
    if IsFinal(PartPath(a)) { FinalBytes(PartPath(a)); }
    if IsFinal(StatePath(a)) { FinalBytes(StatePath(a)); }
    assert PartPath(a)[..|PartPath(a)| - |PART|] == a && PartPath(b)[..|PartPath(b)| - |PART|] == b;
    assert StatePath(a)[..|StatePath(a)| - |STATE|] == a && StatePath(b)[..|StatePath(b)| - |STATE|] == b;
  }

  // ---- operations ----

  /** A WriteAt: bytes between the old end and the offset read as zero. */
  function Overlay(f: Data, off: nat, data: Data): (r: Data)
    ensures |r| == Max(|f|, off + |data|)
  {
    var base := if |f| < off then f + Zeros(off - |f|) else f;
    base[..off] + data + (if off + |data| < |base| then base[off + |data|..] else [])
  }

  lemma OverlayAt(f: Data, off: nat, data: Data, i: nat)
    requires i < Max(|f|, off + |data|)
    ensures Overlay(f, off, data)[i] ==
      if off <= i < off + |data| then data[i - off] else if i < |f| then f[i] else 0
  {
  }

  /** Writing two adjacent pieces is writing them at once. */
  lemma OverlayTwice(f: Data, off: nat, a: Data, b: Data)
    ensures Overlay(Overlay(f, off, a), off + |a|, b) == Overlay(f, off, a + b)
  {
    var l, r := Overlay(Overlay(f, off, a), off + |a|, b), Overlay(f, off, a + b);
    assert |l| == |r|;
    forall i | 0 <= i < |l| ensures l[i] == r[i] {
      if i < Max(|f|, off + |a|) {
        OverlayAt(f, off, a, i);
      }
      OverlayAt(Overlay(f, off, a), off + |a|, b, i);
      OverlayAt(f, off, a + b, i);
    }
  }

  function Resized(f: Data, n: nat): (r: Data)
    ensures |r| == n
  {
    if n <= |f| then f[..n] else f + Zeros(n - |f|)
  }

  function WriteAt(d: Disk, path: Data, off: nat, data: Data): Disk
  {
    if path in d.files && d.files[path].Plain? then
      Next(d, d.files[path := Plain(Overlay(d.files[path].bytes, off, data))])
    else d
  }

  function Truncate(d: Disk, path: Data, n: nat): Disk
  {
    if path in d.files && d.files[path].Plain? then
      Next(d, d.files[path := Plain(Resized(d.files[path].bytes, n))])
    else d
  }

  /** Atomically moves a file over whatever had the target's name. */
  function Rename(d: Disk, src: Data, dst: Data): Disk
  {
    if src in d.files then Next(d, (d.files - {src})[dst := d.files[src]]) else d
  }

  function Remove(d: Disk, path: Data): Disk
  {
    if path in d.files then Next(d, d.files - {path}) else d
  }

  /** os.CreateTemp: a new empty file, unless the call fails or the name is taken. */
  function CreateTemp(d: Disk, name: Data, rnd: Option<Data>): Option<(Disk, Data)>
  {
    if rnd.Some? && Digits(rnd.value) && TempPath(name, rnd.value) !in d.files then
      var path := TempPath(name, rnd.value);
      Some((Next(d, d.files[path := Plain([])]), path))
    else None
  }

  function PutSidecar(d: Disk, path: Data, state: PartialState, now: int): Disk
  {
    Next(d, d.files[path := Sidecar(Some(state), now)])
  }

  function LoadState(files: Dir, path: Data): Option<PartialState>
  {
    if path in files && files[path].Sidecar? then files[path].state else None
  }

  /** The bytes of a file, empty when there is none. */
  function Content(files: Dir, path: Data): Data
  {
    if path in files && files[path].Plain? then files[path].bytes else []
  }
}
