/** The crate resolver: a worklist over the sparse index that selects a dependency closure. */
module Crates {
  import opened Bytes
  import opened Lexical

  const MAX_RESOLVED := 4000

  datatype Ver = Ver(major: int, minor: int, patch: int, pre: string)

  datatype Dep = Dep(name: string, package: string, req: string, dev: bool, optional: bool)

  datatype Release = Release(name: string, version: string, cksum: string, yanked: bool, deps: seq<Dep>)

  /** A demand: a pinned version, a requirement, or just a name. */
  datatype Want = Want(name: string, exact: string, req: string)

  /** The version of a comparator, which may leave out its last components. */
  datatype Partial = Partial(major: nat, minor: nat, patch: nat, hasMinor: bool, hasPatch: bool, pre: string)

  datatype Op = Any | Equal | Above | AtLeast | Below | AtMost | Tilde | Caret

  /** One comparator of a requirement. */
  datatype Pred = Pred(op: Op, v: Partial)

  /** Lower-casing, validation, the parsers of versions and requirements, and the order of pre-release
      tags, as parameters. */
  datatype Rules = Rules(
    lower: string -> string, validName: string -> bool, validVersion: string -> bool,
    version: string -> Option<Ver>, req: string -> Option<seq<Pred>>, prerelease: (string, string) -> int)

  /** Valid names stay free of the separator of a selection's key. */
  ghost predicate Sound(r: Rules)
  {
    forall n :: r.validName(n) ==> '@' !in r.lower(n)
  }

  // ---- the order of versions ----

  /** compareCrateVer. */
  function Compare(r: Rules, a: Ver, b: Ver): int
  {
    if a.major != b.major then Sign(a.major - b.major)
    else if a.minor != b.minor then Sign(a.minor - b.minor)
    else if a.patch != b.patch then Sign(a.patch - b.patch)
    else if a.pre == "" && b.pre != "" then 1
    else if a.pre != "" && b.pre == "" then -1
    else r.prerelease(a.pre, b.pre)
  }

  /** The order of pre-release tags is a total preorder. */
  ghost predicate TagsOrdered(r: Rules)
  {
    && (forall a, b :: r.prerelease(a, b) <= 0 <==> r.prerelease(b, a) >= 0)
    && (forall a, b, c :: r.prerelease(a, b) <= 0 && r.prerelease(b, c) <= 0 ==> r.prerelease(a, c) <= 0)
  }

  /** Then so is the order of versions. */
  lemma VersionsOrdered(r: Rules, a: Ver, b: Ver, c: Ver)
    requires TagsOrdered(r)
    ensures Compare(r, a, b) <= 0 <==> Compare(r, b, a) >= 0
    ensures Compare(r, a, b) <= 0 && Compare(r, b, c) <= 0 ==> Compare(r, a, c) <= 0
  {
  }

  /** A version is older by its first component that differs; of the same components a pre-release is older
      than the release, and of two pre-releases the one whose tag comes first. */
  ghost predicate Older(r: Rules, a: Ver, b: Ver)
  {
    || a.major < b.major
    || (a.major == b.major && a.minor < b.minor)
    || (a.major == b.major && a.minor == b.minor && a.patch < b.patch)
    || (a.major == b.major && a.minor == b.minor && a.patch == b.patch && a.pre != "" &&
        (b.pre == "" || r.prerelease(a.pre, b.pre) < 0))
  }

  lemma CompareMeans(r: Rules, a: Ver, b: Ver)
    requires TagsOrdered(r)
    ensures Compare(r, a, b) < 0 <==> Older(r, a, b)
    ensures Compare(r, a, b) > 0 <==> Older(r, b, a)
  {
    assert r.prerelease("", "") == 0;
  }

  // ---- matching requirements ----

  function Filled(p: Partial): Ver { Ver(p.major, p.minor, p.patch, p.pre) }

  /** crateVerBetween. */
  predicate Between(r: Rules, v: Ver, lower: Ver, upper: Ver)
  {
    Compare(r, v, lower) >= 0 && Compare(r, v, upper) < 0
  }

  /** crateTildeUpper. */
  function TildeUpper(p: Partial): Ver
  {
    if p.hasMinor then Ver(p.major, p.minor + 1, 0, "") else Ver(p.major + 1, 0, 0, "")
  }

  /** crateCaretUpper. */
  function CaretUpper(p: Partial): Ver
  {
    if p.major > 0 then Ver(p.major + 1, 0, 0, "")
    else if p.hasMinor && p.minor > 0 then Ver(0, p.minor + 1, 0, "")
    else if p.hasMinor && p.hasPatch then Ver(0, 0, p.patch + 1, "")
    else if p.hasMinor then Ver(0, 1, 0, "")
    else Ver(1, 0, 0, "")
  }

  /** crateEqMatches. */
  predicate EqMatches(r: Rules, p: Partial, v: Ver)
  {
    if !p.hasMinor then v.major == p.major
    else if !p.hasPatch then v.major == p.major && v.minor == p.minor
    else Compare(r, v, Filled(p)) == 0
  }

  /** cratePredMatches. */
  predicate PredMatches(r: Rules, p: Pred, v: Ver)
  {
    match p.op
    case Any => true
    case Equal => EqMatches(r, p.v, v)
    case Above => Compare(r, v, Filled(p.v)) > 0
    case AtLeast => Compare(r, v, Filled(p.v)) >= 0
    case Below => Compare(r, v, Filled(p.v)) < 0
    case AtMost => Compare(r, v, Filled(p.v)) <= 0
    case Tilde => Between(r, v, Filled(p.v), TildeUpper(p.v))
    case Caret => Between(r, v, Filled(p.v), CaretUpper(p.v))
  }

  predicate NamesPre(p: Pred, v: Ver)
  {
    p.v.pre != "" && p.v.major == v.major && p.v.minor == v.minor && p.v.patch == v.patch
  }

  /** crateReqMatches. */
  predicate ReqMatches(r: Rules, preds: seq<Pred>, v: Ver)
  {
    (forall p | p in preds :: PredMatches(r, p, v)) && (v.pre == "" || exists p :: p in preds && NamesPre(p, v))
  }

  /** What the comparators of one version mean, whose missing components are zero: below and above it, or not;
      equal in all that is given, and neither older nor newer if everything is. */
  lemma ComparatorsMean(r: Rules, p: Partial, v: Ver)
    requires TagsOrdered(r)
    ensures var bound := Ver(p.major, p.minor, p.patch, p.pre);
      && PredMatches(r, Pred(Any, p), v)
      && (PredMatches(r, Pred(Below, p), v) <==> Older(r, v, bound))
      && (PredMatches(r, Pred(Above, p), v) <==> Older(r, bound, v))
      && (PredMatches(r, Pred(AtMost, p), v) <==> !Older(r, bound, v))
      && (PredMatches(r, Pred(AtLeast, p), v) <==> !Older(r, v, bound))
      && (p.hasMinor && p.hasPatch ==> (PredMatches(r, Pred(Equal, p), v) <==> !Older(r, v, bound) && !Older(r, bound, v)))
      && (p.hasMinor && !p.hasPatch ==> (PredMatches(r, Pred(Equal, p), v) <==> v.major == p.major && v.minor == p.minor))
      && (!p.hasMinor ==> (PredMatches(r, Pred(Equal, p), v) <==> v.major == p.major))
  {
    CompareMeans(r, v, Ver(p.major, p.minor, p.patch, p.pre));
  }

  /** A requirement matches what all its comparators do, and a pre-release only if one of them names a
      pre-release of the same components. */
  lemma RequirementMeans(r: Rules, preds: seq<Pred>, v: Ver)
    ensures ReqMatches(r, preds, v) <==>
      && (forall i | 0 <= i < |preds| :: PredMatches(r, preds[i], v))
      && (v.pre == "" || exists i :: 0 <= i < |preds| && preds[i].v.pre != "" && preds[i].v.major == v.major
                                     && preds[i].v.minor == v.minor && preds[i].v.patch == v.patch)
  {
    hide PredMatches;
    assert forall i | 0 <= i < |preds| :: preds[i] in preds;
    if i :| 0 <= i < |preds| && preds[i].v.pre != "" && preds[i].v.major == v.major
            && preds[i].v.minor == v.minor && preds[i].v.patch == v.patch {
      assert NamesPre(preds[i], v);
    }
  }

  /** A comparator as parsed: a component left out is zero, and so are those after it. */
  ghost predicate Parsed(p: Partial)
  {
    (p.hasPatch ==> p.hasMinor) && (!p.hasMinor ==> p.minor == 0) && (!p.hasPatch ==> p.patch == 0)
  }

  /** What a caret promises: nothing older, and no change to the leftmost component that is not zero, or to the
      last one given if all are. */
  predicate Compatible(r: Rules, p: Partial, v: Ver)
  {
    && Compare(r, v, Filled(p)) >= 0
    && v.major == p.major
    && (p.major == 0 && p.hasMinor && (p.minor > 0 || p.hasPatch) ==> v.minor == p.minor)
    && (p.major == 0 && p.hasMinor && p.minor == 0 ==> v.minor == 0)
    && (p.major == 0 && p.minor == 0 && p.hasPatch ==> v.patch == p.patch)
  }

  /** What a tilde promises: nothing older, and no change to the minor version, if one is given, or to the major one. */
  predicate SamePrefix(r: Rules, p: Partial, v: Ver)
  {
    Compare(r, v, Filled(p)) >= 0 && v.major == p.major && (p.hasMinor ==> v.minor == p.minor)
  }

  /** A pre-release of the version a bound excludes lies below the bound. */
  predicate PreOf(v: Ver, bound: Ver)
  {
    v.pre != "" && v.major == bound.major && v.minor == bound.minor && v.patch == bound.patch
  }

  predicate Natural(v: Ver) { v.major >= 0 && v.minor >= 0 && v.patch >= 0 }

  /** The interval of a caret comparator is what it promises, plus the pre-releases of its upper bound. */
  lemma CaretMeans(r: Rules, p: Partial, v: Ver)
    requires TagsOrdered(r) && Parsed(p) && Natural(v)
    ensures PredMatches(r, Pred(Caret, p), v) <==> Compatible(r, p, v) || PreOf(v, CaretUpper(p))
  {
    assert r.prerelease("", "") == 0;
  }

  lemma TildeMeans(r: Rules, p: Partial, v: Ver)
    requires TagsOrdered(r) && Parsed(p) && Natural(v)
    ensures PredMatches(r, Pred(Tilde, p), v) <==> SamePrefix(r, p, v) || PreOf(v, TildeUpper(p))
  {
    assert r.prerelease("", "") == 0;
  }

  /** What comparators promise. */
  predicate Promised(r: Rules, p: Pred, v: Ver)
  {
    match p.op
    case Caret => Compatible(r, p.v, v)
    case Tilde => SamePrefix(r, p.v, v)
    case _ => PredMatches(r, p, v)
  }

  function UpperOf(p: Pred): Option<Ver>
  {
    match p.op
    case Caret => Some(CaretUpper(p.v))
    case Tilde => Some(TildeUpper(p.v))
    case _ => None
  }

  ghost predicate PromisedAll(r: Rules, preds: seq<Pred>, v: Ver)
  {
    (forall p | p in preds :: Promised(r, p, v)) && (v.pre == "" || exists p :: p in preds && NamesPre(p, v))
  }

  /** Some comparator is met only as a pre-release of the version it excludes. */
  ghost predicate SlipsUnder(r: Rules, preds: seq<Pred>, v: Ver)
  {
    exists p :: p in preds && UpperOf(p).Some? && PreOf(v, UpperOf(p).value)
  }

  lemma PredMeans(r: Rules, p: Pred, v: Ver)
    requires TagsOrdered(r) && Natural(v) && Parsed(p.v)
    ensures PredMatches(r, p, v) <==> Promised(r, p, v) || (UpperOf(p).Some? && PreOf(v, UpperOf(p).value))
    ensures UpperOf(p).Some? && PreOf(v, UpperOf(p).value) ==> !Promised(r, p, v) && !NamesPre(p, v)
  {
    match p.op
    case Caret => CaretMeans(r, p.v, v);
    case Tilde => TildeMeans(r, p.v, v);
    case _ =>
  }

  /** Matching keeps the promise except on the pre-releases of a version that some comparator excludes,
      so always on requirements of one comparator. */
  lemma MatchesAsPromised(r: Rules, preds: seq<Pred>, v: Ver)
    requires TagsOrdered(r) && Natural(v) && forall p | p in preds :: Parsed(p.v)
    ensures PromisedAll(r, preds, v) <==> ReqMatches(r, preds, v) && !SlipsUnder(r, preds, v)
    ensures |preds| == 1 ==> (ReqMatches(r, preds, v) <==> PromisedAll(r, preds, v))
  {
    hide PredMatches, Promised, Parsed, TagsOrdered, Natural, PreOf, UpperOf, NamesPre;
    forall p | p in preds
      ensures PredMatches(r, p, v) <==> Promised(r, p, v) || (UpperOf(p).Some? && PreOf(v, UpperOf(p).value))
      ensures UpperOf(p).Some? && PreOf(v, UpperOf(p).value) ==> !Promised(r, p, v) && !NamesPre(p, v) && v.pre != ""
    {
      PredMeans(r, p, v);
      assert UpperOf(p).Some? && PreOf(v, UpperOf(p).value) ==> v.pre != "" by { hide *; Pre(v, UpperOf(p)); }
    }
  }

  lemma Pre(v: Ver, bound: Option<Ver>)
    ensures bound.Some? && PreOf(v, bound.value) ==> v.pre != ""
  {
  }

  /** Two comparators can let in what one excludes: "^1.2, >=2.0.0-alpha" takes 2.0.0-alpha. */
  lemma SlipsIn(r: Rules)
    requires TagsOrdered(r)
    ensures var compatible, newer := Pred(Caret, Partial(1, 2, 0, true, false, "")), Pred(AtLeast, Partial(2, 0, 0, true, true, "alpha"));
      var v := Ver(2, 0, 0, "alpha");
      ReqMatches(r, [compatible, newer], v) && !PromisedAll(r, [compatible, newer], v)
  {
    var compatible, newer := Pred(Caret, Partial(1, 2, 0, true, false, "")), Pred(AtLeast, Partial(2, 0, 0, true, true, "alpha"));
    var v := Ver(2, 0, 0, "alpha");
    assert r.prerelease("alpha", "alpha") == 0;
    assert [compatible, newer][0] == compatible && [compatible, newer][1] == newer;
    PredMeans(r, compatible, v);
    assert NamesPre(newer, v) && newer in [compatible, newer];
  }

  // ---- choosing a release ----

  /** An entry that may be chosen for newest or by a requirement. */
  predicate Eligible(r: Rules, e: Release, keep: Ver -> bool)
  {
    !e.yanked && r.version(e.version).Some? && keep(r.version(e.version).value)
  }

  /** One version is lower than another, or not higher. */
  ghost predicate Lower(r: Rules, e: Release, best: Release, strictly: bool)
  {
    && r.version(e.version).Some? && r.version(best.version).Some?
    && Compare(r, r.version(e.version).value, r.version(best.version).value) <= (if strictly then -1 else 0)
  }

  /** The first of the highest eligible entries before position n. */
  ghost predicate IsBest(r: Rules, entries: seq<Release>, n: nat, keep: Ver -> bool, b: nat)
    requires n <= |entries|
  {
    && b < n && Eligible(r, entries[b], keep)
    && forall i | 0 <= i < n && Eligible(r, entries[i], keep) :: Lower(r, entries[i], entries[b], i < b)
  }

  /** maxCrateWhere: the first of the highest eligible entries. */
  method MaxWhere(r: Rules, entries: seq<Release>, keep: Ver -> bool) returns (best: Option<nat>)
    ensures best.None? <==> forall i | 0 <= i < |entries| :: !Eligible(r, entries[i], keep)
    ensures best.Some? ==> best.value < |entries| && Eligible(r, entries[best.value], keep)
    ensures best.None? <==> forall i | 0 <= i < |entries| && !entries[i].yanked && r.version(entries[i].version).Some? ::
      !keep(r.version(entries[i].version).value)
    ensures best.Some? ==> var e := entries[best.value];
      !e.yanked && r.version(e.version).Some? && keep(r.version(e.version).value)
    ensures best.Some? && TagsOrdered(r) ==> IsBest(r, entries, |entries|, keep, best.value)
  {
    best := None;
    for i := 0 to |entries|
      invariant best.None? <==> forall k | 0 <= k < i :: !Eligible(r, entries[k], keep)
      invariant best.Some? ==> best.value < i && Eligible(r, entries[best.value], keep)
      invariant best.Some? && TagsOrdered(r) ==> IsBest(r, entries, i, keep, best.value)
    {
      if Eligible(r, entries[i], keep) {
        if best.None? || Compare(r, r.version(entries[i].version).value, r.version(entries[best.value].version).value) > 0 {
          Higher(r, entries, keep, i, best);
          best := Some(i);
        } else {
          NotHigher(r, entries, keep, i, best.value);
        }
      }
    }
  }

  lemma Higher(r: Rules, entries: seq<Release>, keep: Ver -> bool, i: nat, best: Option<nat>)
    requires i < |entries| && Eligible(r, entries[i], keep)
    requires best.None? ==> forall k | 0 <= k < i :: !Eligible(r, entries[k], keep)
    requires best.Some? ==> best.value < i && Eligible(r, entries[best.value], keep)
    requires best.Some? ==>
      Compare(r, r.version(entries[i].version).value, r.version(entries[best.value].version).value) > 0
    requires best.Some? && TagsOrdered(r) ==> IsBest(r, entries, i, keep, best.value)
    ensures TagsOrdered(r) ==> IsBest(r, entries, i + 1, keep, i)
  {
    hide Compare, TagsOrdered;
    if TagsOrdered(r) {
      var v := r.version(entries[i].version).value;
      VersionsOrdered(r, v, v, v);
      forall k | 0 <= k < i && Eligible(r, entries[k], keep)
        ensures Lower(r, entries[k], entries[i], true)
      {
        var x, b := r.version(entries[k].version).value, r.version(entries[best.value].version).value;
        VersionsOrdered(r, v, b, v);
        VersionsOrdered(r, v, x, b);
        VersionsOrdered(r, x, v, x);
      }
    }
  }

  lemma NotHigher(r: Rules, entries: seq<Release>, keep: Ver -> bool, i: nat, b: nat)
    requires i < |entries| && Eligible(r, entries[i], keep) && b < i && Eligible(r, entries[b], keep)
    requires Compare(r, r.version(entries[i].version).value, r.version(entries[b].version).value) <= 0
    requires TagsOrdered(r) ==> IsBest(r, entries, i, keep, b)
    ensures TagsOrdered(r) ==> IsBest(r, entries, i + 1, keep, b)
  {
    hide Compare, TagsOrdered;
  }

  predicate ReqMet(r: Rules, req: string, v: Ver)
  {
    r.req(req).Some? && ReqMatches(r, r.req(req).value, v)
  }

  /** Whether a release is what a want asks for. */
  predicate Satisfies(r: Rules, e: Release, w: Want)
  {
    && r.lower(e.name) == r.lower(w.name)
    && (w.exact != "" ==> e.version == w.exact)
    && (w.exact == "" && w.req != "" ==> r.version(e.version).Some? && ReqMet(r, w.req, r.version(e.version).value))
  }

  /** A release of the crate meets a requirement that parses. */
  ghost predicate Answers(r: Rules, e: Release, name: string, req: string)
  {
    && r.lower(e.name) == r.lower(name) && r.version(e.version).Some? && r.req(req).Some?
    && ReqMatches(r, r.req(req).value, r.version(e.version).value)
  }

  /** A release satisfies a want exactly if it is of the crate and is the pinned version, or else meets the
      requirement, or else is any. */
  lemma SatisfiesMeans(r: Rules, e: Release, w: Want)
    ensures w.exact != "" ==> (Satisfies(r, e, w) <==> r.lower(e.name) == r.lower(w.name) && e.version == w.exact)
    ensures w.exact == "" && w.req != "" ==> (Satisfies(r, e, w) <==> Answers(r, e, w.name, w.req))
    ensures w.exact == "" && w.req == "" ==> (Satisfies(r, e, w) <==> r.lower(e.name) == r.lower(w.name))
  {
  }

  /** No entry serves the want: the pinned version is not listed, the requirement is malformed or met by
      no eligible entry, or no entry is eligible at all. */
  ghost predicate NoRelease(r: Rules, entries: seq<Release>, w: Want)
  {
    if w.exact != "" then forall i | 0 <= i < |entries| :: entries[i].version != w.exact
    else if w.req != "" then
      forall i | 0 <= i < |entries| :: !Eligible(r, entries[i], (v: Ver) => ReqMet(r, w.req, v))
    else forall i | 0 <= i < |entries| :: !Eligible(r, entries[i], (v: Ver) => true)
  }

  /** The entry a want is for: the first with the pinned version, the highest that meets the requirement,
      or the newest, stable releases first. */
  ghost predicate IsChoice(r: Rules, entries: seq<Release>, w: Want, i: nat)
    requires i < |entries|
  {
    if w.exact != "" then entries[i].version == w.exact && forall k | 0 <= k < i :: entries[k].version != w.exact
    else if w.req != "" then IsBest(r, entries, |entries|, (v: Ver) => ReqMet(r, w.req, v), i)
    else
      IsBest(r, entries, |entries|, (v: Ver) => v.pre == "", i) ||
      ((forall k | 0 <= k < |entries| :: !Eligible(r, entries[k], (v: Ver) => v.pre == "")) &&
       IsBest(r, entries, |entries|, (v: Ver) => true, i))
  }

  /** selectCrateRelease. */
  method Select(r: Rules, entries: seq<Release>, w: Want) returns (sel: Option<nat>)
    ensures sel.Some? ==> sel.value < |entries|
    ensures sel.Some? && r.lower(entries[sel.value].name) == r.lower(w.name) ==> Satisfies(r, entries[sel.value], w)
    ensures sel.Some? && w.exact != "" ==> entries[sel.value].version == w.exact
    ensures sel.Some? && w.exact == "" ==> !entries[sel.value].yanked && r.version(entries[sel.value].version).Some?
    ensures sel.Some? && w.exact == "" && w.req != "" ==>
      r.req(w.req).Some? && ReqMatches(r, r.req(w.req).value, r.version(entries[sel.value].version).value)
    ensures sel.None? <==> NoRelease(r, entries, w)
    ensures sel.Some? && TagsOrdered(r) ==> IsChoice(r, entries, w, sel.value)
  {
    if w.exact != "" {
      for i := 0 to |entries|
        invariant forall k | 0 <= k < i :: entries[k].version != w.exact
      {
        if entries[i].version == w.exact {
          return Some(i);
        }
      }
      return None;
    }
    if w.req != "" {
      if r.req(w.req).None? {
        return None;
      }
      var meets := (v: Ver) => ReqMatches(r, r.req(w.req).value, v);
      sel := MaxWhere(r, entries, meets);
      SameChoice(r, entries, meets, (v: Ver) => ReqMet(r, w.req, v));
      return;
    }
    sel := MaxWhere(r, entries, (v: Ver) => v.pre == "");
    if sel.None? {
      sel := MaxWhere(r, entries, (v: Ver) => true);
    }
  }

  lemma SameChoice(r: Rules, entries: seq<Release>, keep: Ver -> bool, same: Ver -> bool)
    requires forall v :: keep(v) == same(v)
    ensures forall i | 0 <= i < |entries| :: Eligible(r, entries[i], keep) == Eligible(r, entries[i], same)
    ensures forall b | 0 <= b < |entries| ::
      IsBest(r, entries, |entries|, keep, b) == IsBest(r, entries, |entries|, same, b)
  {
  }

  // ---- the resolver ----

  function KeyOf(r: Rules, e: Release): string { r.lower(e.name) + "@" + e.version }

  lemma KeysIdentify(r: Rules, a: Release, b: Release)
    requires Sound(r) && r.validName(a.name) && r.validName(b.name) && KeyOf(r, a) == KeyOf(r, b)
    ensures r.lower(a.name) == r.lower(b.name) && a.version == b.version
  {
    var x, y := r.lower(a.name), r.lower(b.name);
    NameEnds(x, a.version);
    NameEnds(y, b.version);
    assert |x| == |y|;
    assert x == KeyOf(r, a)[..|x|] && y == KeyOf(r, a)[..|x|];
    assert a.version == KeyOf(r, a)[|x| + 1..] && b.version == KeyOf(r, a)[|x| + 1..];
  }

  lemma NameEnds(x: string, v: string)
    requires '@' !in x
    ensures (x + "@" + v)[|x|] == '@' && forall i | 0 <= i < |x| :: (x + "@" + v)[i] != '@'
  {
    forall i | 0 <= i < |x| ensures (x + "@" + v)[i] != '@' {
      assert (x + "@" + v)[i] == x[i] && x[i] in x;
    }
  }

  /** depWants: the edges of a release that count. */
  function DepWants(r: Rules, deps: seq<Dep>, optional: bool): seq<Want>
  {
    if deps == [] then []
    else
      var d := deps[|deps| - 1];
      var name := if d.package != "" then d.package else d.name;
      DepWants(r, deps[..|deps| - 1], optional) +
      (if d.dev || (d.optional && !optional) || !r.validName(name) then [] else [Want(name, "", d.req)])
  }

  /** The edges that count: none of development, optional ones if asked for, to a valid name, which is that of
      the package if the edge renames it. */
  lemma {:induction false} DepWantsMean(r: Rules, deps: seq<Dep>, optional: bool)
    ensures forall w :: w in DepWants(r, deps, optional) <==> exists i :: 0 <= i < |deps| && EdgeOf(r, deps[i], optional, w)
  {
    if deps != [] {
      var n := |deps| - 1;
      DepWantsMean(r, deps[..n], optional);
      forall w ensures w in DepWants(r, deps, optional) <==> exists i :: 0 <= i < |deps| && EdgeOf(r, deps[i], optional, w) {
        if i :| 0 <= i < n && EdgeOf(r, deps[..n][i], optional, w) {
          assert EdgeOf(r, deps[i], optional, w);
        }
        if i :| 0 <= i < |deps| && EdgeOf(r, deps[i], optional, w) {
          assert i < n ==> EdgeOf(r, deps[..n][i], optional, w);
        }
      }
    }
  }

  ghost predicate EdgeOf(r: Rules, d: Dep, optional: bool, w: Want)
  {
    && !d.dev && (!d.optional || optional) && r.validName(w.name) && w.exact == "" && w.req == d.req
    && (d.package != "" ==> w.name == d.package) && (d.package == "" ==> w.name == d.name)
  }

  ghost predicate Served(r: Rules, out: seq<Release>, w: Want)
  {
    exists i :: 0 <= i < |out| && Satisfies(r, out[i], w)
  }

  predicate ValidLine(r: Rules, e: Release)
  {
    r.validName(e.name) && r.validVersion(e.version) && |e.cksum| == 64
  }

  /** parseCrateIndexFile's filter. */
  function Valid(r: Rules, lines: seq<Release>): (valid: seq<Release>)
    ensures forall i | 0 <= i < |valid| :: valid[i] in lines && ValidLine(r, valid[i])
    ensures forall e | e in lines && ValidLine(r, e) :: e in valid
  {
    if lines == [] then []
    else Valid(r, lines[..|lines| - 1]) + (if ValidLine(r, lines[|lines| - 1]) then [lines[|lines| - 1]] else [])
  }

  /** The sparse index, by lower-case name: the file of a crate, if it can be fetched. */
  type Files = string -> Option<seq<Release>>

  /** The releases of a crate: nothing without a file or with one that lists no valid release. */
  function EntriesOf(r: Rules, index: Files, key: string): Option<seq<Release>>
  {
    if index(key).None? || Valid(r, index(key).value) == [] then None else Some(Valid(r, index(key).value))
  }

  /** The releases of a crate are those its file lists with a valid name and version and a checksum of 64
      characters, in the order of the file; there are none if the file cannot be had or lists no such release. */
  lemma EntriesMean(r: Rules, index: Files, key: string)
    ensures EntriesOf(r, index, key).Some? <==> index(key).Some? && exists e :: e in index(key).value && WellFormed(r, e)
    ensures EntriesOf(r, index, key).Some? ==>
      && (forall e :: e in EntriesOf(r, index, key).value <==> e in index(key).value && WellFormed(r, e))
      && InOrder(r, index(key).value, EntriesOf(r, index, key).value)
  {
    if index(key).Some? {
      ValidOrder(r, index(key).value);
      var lines := index(key).value;
      assert forall e | e in Valid(r, lines) :: exists i :: 0 <= i < |Valid(r, lines)| && Valid(r, lines)[i] == e;
      if e :| e in lines && WellFormed(r, e) {
        assert e in Valid(r, lines);
      }
      if Valid(r, lines) != [] {
        var e := Valid(r, lines)[0];
        assert e in lines && WellFormed(r, e);
      }
    }
  }

  ghost predicate WellFormed(r: Rules, e: Release) { r.validName(e.name) && r.validVersion(e.version) && |e.cksum| == 64 }

  /** The well-formed lines one after another. */
  ghost predicate InOrder(r: Rules, lines: seq<Release>, valid: seq<Release>)
    decreases |lines|
  {
    if lines == [] then valid == []
    else if WellFormed(r, lines[|lines| - 1]) then
      valid != [] && valid[|valid| - 1] == lines[|lines| - 1] && InOrder(r, lines[..|lines| - 1], valid[..|valid| - 1])
    else InOrder(r, lines[..|lines| - 1], valid)
  }

  lemma {:induction false} ValidOrder(r: Rules, lines: seq<Release>)
    ensures InOrder(r, lines, Valid(r, lines))
  {
    if lines != [] {
      var init, last := lines[..|lines| - 1], lines[|lines| - 1];
      ValidOrder(r, init);
      if ValidLine(r, last) {
        assert Valid(r, lines)[..|Valid(r, lines)| - 1] == Valid(r, init);
      } else {
        assert Valid(r, init) + [] == Valid(r, init);
      }
    }
  }

  /** Index entries carry the name that was asked for. */
  ghost predicate Carried(r: Rules, index: Files)
  {
    forall k: string | EntriesOf(r, index, k).Some? :: forall i | 0 <= i < |EntriesOf(r, index, k).value| ::
      r.lower(EntriesOf(r, index, k).value[i].name) == k
  }

  /** A want the index has no release for. */
  ghost predicate Unmet(r: Rules, index: Files, w: Want)
  {
    var entries := EntriesOf(r, index, r.lower(w.name));
    entries.None? || NoRelease(r, entries.value, w)
  }

  /** What is recorded of the selected releases: their keys, each once, and their versions by name. */
  ghost predicate RecordsOk(r: Rules, picked: set<string>, byName: map<string, seq<Ver>>, out: seq<Release>)
  {
    && (forall i | 0 <= i < |out| :: r.validName(out[i].name) && KeyOf(r, out[i]) in picked)
    && (forall k | k in picked :: Selected(r, out, k)) && OnceEach(r, out)
    && (forall n | n in byName :: forall v | v in byName[n] :: HasVersion(r, out, n, v))
    && (forall i | 0 <= i < |out| && r.version(out[i].version).Some? :: Noted(byName, r.lower(out[i].name), r.version(out[i].version).value))
  }

  ghost predicate Noted(byName: map<string, seq<Ver>>, n: string, v: Ver)
  {
    n in byName && v in byName[n]
  }

  ghost predicate Selected(r: Rules, out: seq<Release>, key: string)
  {
    exists i :: 0 <= i < |out| && KeyOf(r, out[i]) == key
  }

  ghost predicate OnceEach(r: Rules, out: seq<Release>)
  {
    forall i, k | 0 <= i < k < |out| :: KeyOf(r, out[i]) != KeyOf(r, out[k])
  }

  ghost predicate HasVersion(r: Rules, out: seq<Release>, n: string, v: Ver)
  {
    exists i :: 0 <= i < |out| && r.lower(out[i].name) == n && r.version(out[i].version) == Some(v)
  }

  /** The versions by name with one more release. */
  function WithVersion(r: Rules, byName: map<string, seq<Ver>>, e: Release): map<string, seq<Ver>>
  {
    var key := r.lower(e.name);
    if r.version(e.version).None? then byName
    else byName[key := (if key in byName then byName[key] else []) + [r.version(e.version).value]]
  }

  lemma RecordMore(r: Rules, picked: set<string>, byName: map<string, seq<Ver>>, out: seq<Release>, e: Release)
    requires RecordsOk(r, picked, byName, out) && KeyOf(r, e) !in picked && r.validName(e.name)
    ensures RecordsOk(r, picked + {KeyOf(r, e)}, WithVersion(r, byName, e), out + [e])
  {
    hide KeyOf;
    var more := out + [e];
    assert more[|out|] == e;
    forall k | k in picked + {KeyOf(r, e)} ensures Selected(r, more, k) {
      if k in picked {
        assert Selected(r, out, k);
        var i :| 0 <= i < |out| && KeyOf(r, out[i]) == k;
        assert more[i] == out[i];
      }
    }
    VersionMore(r, byName, out, e);
    NotedMore(r, byName, out, e);
  }

  lemma NotedMore(r: Rules, byName: map<string, seq<Ver>>, out: seq<Release>, e: Release)
    requires forall i | 0 <= i < |out| && r.version(out[i].version).Some? ::
      Noted(byName, r.lower(out[i].name), r.version(out[i].version).value)
    ensures forall i | 0 <= i < |out + [e]| && r.version((out + [e])[i].version).Some? ::
      Noted(WithVersion(r, byName, e), r.lower((out + [e])[i].name), r.version((out + [e])[i].version).value)
  {
    var now, more := WithVersion(r, byName, e), out + [e];
    forall i | 0 <= i < |more| && r.version(more[i].version).Some?
      ensures Noted(now, r.lower(more[i].name), r.version(more[i].version).value)
    {
      if i < |out| {
        assert Noted(byName, r.lower(out[i].name), r.version(out[i].version).value);
      }
    }
  }

  lemma VersionMore(r: Rules, byName: map<string, seq<Ver>>, out: seq<Release>, e: Release)
    requires forall n | n in byName :: forall v | v in byName[n] :: HasVersion(r, out, n, v)
    ensures var now := WithVersion(r, byName, e);
      forall n | n in now :: forall v | v in now[n] :: HasVersion(r, out + [e], n, v)
  {
    var now, more := WithVersion(r, byName, e), out + [e];
    forall n, v | n in now && v in now[n] ensures HasVersion(r, more, n, v) {
      if n in byName && v in byName[n] {
        assert HasVersion(r, out, n, v);
        var i :| 0 <= i < |out| && r.lower(out[i].name) == n && r.version(out[i].version) == Some(v);
        assert more[i] == out[i];
      } else {
        assert more[|out|] == e;
      }
    }
  }

  lemma AlreadyServes(r: Rules, out: seq<Release>, e: Release, w: Want)
    requires Sound(r) && Selected(r, out, KeyOf(r, e)) && r.validName(e.name)
    requires forall i | 0 <= i < |out| :: r.validName(out[i].name)
    ensures Satisfies(r, e, w) ==> Served(r, out, w)
  {
    var i :| 0 <= i < |out| && KeyOf(r, out[i]) == KeyOf(r, e);
    KeysIdentify(r, out[i], e);
  }

  lemma Listed(r: Rules, index: Files, w: Want, i: nat)
    requires EntriesOf(r, index, r.lower(w.name)).Some? && i < |EntriesOf(r, index, r.lower(w.name)).value|
    ensures var e := EntriesOf(r, index, r.lower(w.name)).value[i];
      r.validName(e.name) && (Carried(r, index) ==> r.lower(e.name) == r.lower(w.name))
  {
  }

  lemma NowServes(r: Rules, out: seq<Release>, e: Release, w: Want)
    ensures Satisfies(r, e, w) ==> Served(r, out + [e], w)
  {
    assert (out + [e])[|out|] == e;
  }

  class Resolver {
    const rules: Rules
    const index: Files
    const resolveDeps: bool
    const includeOptional: bool
    var cache: map<string, seq<Release>>
    var picked: set<string>
    var byName: map<string, seq<Ver>>

    constructor (rules: Rules, index: Files, resolveDeps: bool, includeOptional: bool)
      ensures this.rules == rules && this.index == index
      ensures this.resolveDeps == resolveDeps && this.includeOptional == includeOptional
      ensures picked == {} && byName == map[] && cache == map[]
    {
      this.rules, this.index, this.resolveDeps, this.includeOptional := rules, index, resolveDeps, includeOptional;
      cache, picked, byName := map[], {}, map[];
    }

    ghost predicate Records(out: seq<Release>)
      reads this
    {
      RecordsOk(rules, picked, byName, out) && Cached()
    }

    ghost predicate Cached()
      reads this
    {
      forall k | k in cache :: EntriesOf(rules, index, k) == Some(cache[k])
    }

    /** entries: cached, or fetched and parsed. */
    method Entries(name: string) returns (entries: Option<seq<Release>>)
      requires Cached()
      modifies this`cache
      ensures Cached() && entries == EntriesOf(rules, index, rules.lower(name))
    {
      var key := rules.lower(name);
      if key in cache {
        return Some(cache[key]);
      }
      var file := index(key);
      if file.None? {
        return None;
      }
      var valid := Valid(rules, file.value);
      if valid == [] {
        return None;
      }
      cache := cache[key := valid];
      entries := Some(valid);
    }

    /** satisfied: some selected version of the crate meets the requirement. */
    method Satisfied(w: Want, ghost out: seq<Release>) returns (yes: bool)
      requires Records(out) && w.exact == "" && w.req != ""
      ensures yes <==> Served(rules, out, w)
      ensures yes <==> exists i :: 0 <= i < |out| && Answers(rules, out[i], w.name, w.req)
    {
      var key := rules.lower(w.name);
      if rules.req(w.req).None? || key !in byName {
        return false;
      }
      var versions := byName[key];
      for i := 0 to |versions|
        invariant forall k | 0 <= k < i :: !ReqMatches(rules, rules.req(w.req).value, versions[k])
      {
        if ReqMatches(rules, rules.req(w.req).value, versions[i]) {
          assert versions[i] in byName[key] && HasVersion(rules, out, key, versions[i]);
          ghost var k :| 0 <= k < |out| && rules.lower(out[k].name) == key && rules.version(out[k].version) == Some(versions[i]);
          assert Satisfies(rules, out[k], w);
          return true;
        }
      }
      yes := false;
    }

    /** pick: a release for a want, nothing when one selected already serves it, or a failure. */
    method Pick(w: Want, ghost out: seq<Release>) returns (failed: bool, sel: Option<Release>)
      requires Sound(rules) && Records(out) && (w.exact != "" ==> w.req == "")
      modifies this
      ensures Records(if sel.Some? then out + [sel.value] else out)
      ensures failed ==> sel.None? && Unmet(rules, index, w)
      ensures (failed || sel.Some?) && w.req != "" ==> !Served(rules, out, w)
      ensures sel.Some? && Carried(rules, index) ==> Satisfies(rules, sel.value, w)
      ensures !failed && Carried(rules, index) ==> Served(rules, if sel.Some? then out + [sel.value] else out, w)
    {
      hide Satisfies, KeyOf, NoRelease, ReqMet, Valid;
      failed, sel := false, None;
      if w.req != "" {
        var yes := Satisfied(w, out);
        if yes {
          return;
        }
      }
      var entries := Entries(w.name);
      if entries.None? {
        return true, None;
      }
      var at := Select(rules, entries.value, w);
      if at.None? {
        return true, None;
      }
      var e := entries.value[at.value];
      Listed(rules, index, w, at.value);
      if KeyOf(rules, e) in picked {
        AlreadyServes(rules, out, e, w);
        return;
      }
      NowServes(rules, out, e, w);
      RecordMore(rules, picked, byName, out, e);
      picked := picked + {KeyOf(rules, e)};
      var key := rules.lower(e.name);
      if rules.version(e.version).Some? {
        byName := byName[key := (if key in byName then byName[key] else []) + [rules.version(e.version).value]];
      }
      sel := Some(e);
    }

    lemma Distinct(out: seq<Release>)
      requires Records(out)
      ensures OnceEach(rules, out)
    {
    }

    /** resolve: breadth first over the demands, until none is left or the cap is reached. Each selected
        name and version is selected once; when the demands run out, each of them, the edges of every
        selected release included, is served by a selected release or was reported as failed. */
    method Resolve(specs: seq<Want>) returns (out: seq<Release>, failed: seq<Want>, ghost demands: seq<Want>, ghost left: nat)
      requires Sound(rules) && picked == {} && byName == map[] && Cached()
      requires forall w | w in specs :: w.req == ""
      modifies this
      ensures |out| <= 4000 && (left > 0 ==> |out| == 4000)
      ensures OnceEach(rules, out)
      ensures demands == specs + Edges(rules, out, resolveDeps, includeOptional)
      ensures left == 0 && Carried(rules, index) ==> AllServed(rules, out, failed, demands)
      ensures Carried(rules, index) ==> AllDemanded(rules, out, demands)
      ensures AllUnmet(rules, index, failed) && forall w | w in failed :: w in demands
    {
      hide Satisfies, KeyOf, Served, AllDemanded, RecordsOk, Edges, DepWants, Carried, AllServed, OnceEach, Sound, Unmet, Cached;
      NothingSelected(rules);
      out, failed := [], [];
      var queue := specs;
      demands := specs;
      ghost var taken := 0;
      while |queue| > 0 && |out| < MAX_RESOLVED
        invariant Records(out) && |out| <= MAX_RESOLVED && taken <= |demands| && queue == demands[taken..]
        invariant demands == specs + Edges(rules, out, resolveDeps, includeOptional)
        invariant forall w | w in demands :: w.exact != "" ==> w.req == ""
        invariant Carried(rules, index) ==> AllServed(rules, out, failed, demands[..taken])
        invariant Carried(rules, index) ==> AllDemanded(rules, out, demands)
        invariant AllUnmet(rules, index, failed) && forall w | w in failed :: w in demands
        decreases MAX_RESOLVED - |out|, |queue|
      {
        var w := queue[0];
        assert w == demands[taken];
        ghost var was, lost, asked := out, failed, demands;
        var bad, sel := Pick(w, out);
        queue := queue[1..];
        if bad {
          failed := failed + [w];
        } else if sel.Some? {
          out := out + [sel.value];
          var more := if resolveDeps then DepWants(rules, sel.value.deps, includeOptional) else [];
          EdgesMore(rules, was, sel.value, resolveDeps, includeOptional);
          NoPins(rules, sel.value.deps, includeOptional);
          queue := queue + more;
          demands := demands + more;
        }
        if Carried(rules, index) {
          ServedMore(rules, was, out, lost, failed, asked, taken);
          DemandedMore(rules, was, out, asked, demands, w);
          assert demands[..taken + 1] == asked[..taken + 1];
        }
        taken := taken + 1;
      }
      left := |queue|;
      Distinct(out);
      assert left == 0 ==> demands[..taken] == demands;
    }
  }

  lemma NothingSelected(r: Rules)
    ensures RecordsOk(r, {}, map[], []) && AllServed(r, [], [], []) && forall d :: AllDemanded(r, [], d)
    ensures forall resolveDeps, optional :: Edges(r, [], resolveDeps, optional) == []
  {
  }

  /** The demands of the selected releases, in order. */
  function Edges(r: Rules, out: seq<Release>, resolveDeps: bool, optional: bool): seq<Want>
  {
    if out == [] || !resolveDeps then []
    else Edges(r, out[..|out| - 1], resolveDeps, optional) + DepWants(r, out[|out| - 1].deps, optional)
  }

  lemma EdgesMore(r: Rules, out: seq<Release>, e: Release, resolveDeps: bool, optional: bool)
    ensures Edges(r, out + [e], resolveDeps, optional)
         == Edges(r, out, resolveDeps, optional) + (if resolveDeps then DepWants(r, e.deps, optional) else [])
  {
    assert (out + [e])[..|out|] == out && (out + [e])[|out|] == e;
  }

  lemma {:induction false} NoPins(r: Rules, deps: seq<Dep>, optional: bool)
    ensures forall w | w in DepWants(r, deps, optional) :: w.exact == ""
  {
    if deps != [] {
      NoPins(r, deps[..|deps| - 1], optional);
    }
  }

  ghost predicate AllUnmet(r: Rules, index: Files, failed: seq<Want>)
  {
    forall w | w in failed :: Unmet(r, index, w)
  }

  ghost predicate AllServed(r: Rules, out: seq<Release>, failed: seq<Want>, wants: seq<Want>)
  {
    forall w | w in wants :: Served(r, out, w) || w in failed
  }

  /** Each selected release was asked for, and a requirement only when none selected before it met it. */
  ghost predicate AllDemanded(r: Rules, out: seq<Release>, demands: seq<Want>)
  {
    forall i | 0 <= i < |out| :: Demanded(r, out[i], out[..i], demands)
  }

  ghost predicate Demanded(r: Rules, e: Release, before: seq<Release>, demands: seq<Want>)
  {
    exists k :: 0 <= k < |demands| && Satisfies(r, e, demands[k]) && (demands[k].req == "" || !Served(r, before, demands[k]))
  }

  lemma DemandedMore(r: Rules, was: seq<Release>, out: seq<Release>, asked: seq<Want>, demands: seq<Want>, w: Want)
    requires AllDemanded(r, was, asked) && asked <= demands && w in asked
    requires was <= out && |out| <= |was| + 1 && (|out| > |was| ==> Satisfies(r, out[|was|], w) && (w.req == "" || !Served(r, was, w)))
    ensures AllDemanded(r, out, demands)
  {
    hide Satisfies, Served;
    forall i | 0 <= i < |out| ensures Demanded(r, out[i], out[..i], demands) {
      if i < |was| {
        assert Demanded(r, was[i], was[..i], asked) && was[..i] == out[..i];
        var k :| 0 <= k < |asked| && Satisfies(r, was[i], asked[k]) && (asked[k].req == "" || !Served(r, was[..i], asked[k]));
        assert demands[k] == asked[k];
      } else {
        var k :| 0 <= k < |asked| && asked[k] == w;
        assert demands[k] == w && out[..i] == was;
      }
    }
  }

  lemma ServedMore(r: Rules, was: seq<Release>, out: seq<Release>, before: seq<Want>, failed: seq<Want>, demands: seq<Want>, taken: nat)
    requires taken < |demands| && was <= out
    requires AllServed(r, was, before, demands[..taken]) && before <= failed
    requires Served(r, out, demands[taken]) || demands[taken] in failed
    ensures AllServed(r, out, failed, demands[..taken + 1])
  {
    forall w | w in demands[..taken + 1] ensures Served(r, out, w) || w in failed {
      if w in demands[..taken] && w !in failed {
        var i :| 0 <= i < |was| && Satisfies(r, was[i], w);
        assert out[i] == was[i];
      }
    }
  }
}
