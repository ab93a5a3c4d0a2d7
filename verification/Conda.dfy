/** The conda version order, the choice among candidates, and the greedy resolver. */
module Conda {
  import opened Bytes
  import opened Lexical

  // ---- lexicographic orders over padded lists ----

  /** Comparison the other way round gives the opposite, and comparisons chain. */
  ghost predicate Preorder<T(!new)>(cmp: (T, T) -> int)
  {
    && (forall a, b :: cmp(b, a) == -cmp(a, b))
    && (forall a, b, c :: cmp(a, b) <= 0 && cmp(b, c) <= 0 ==> cmp(a, c) <= 0)
    && (forall a, b, c :: cmp(a, b) <= 0 && cmp(b, c) <= 0 && cmp(a, c) == 0 ==> cmp(a, b) == 0 && cmp(b, c) == 0)
  }

  function HeadOr<T>(x: seq<T>, pad: T): T { if x == [] then pad else x[0] }

  function Rest<T>(x: seq<T>): seq<T> { if x == [] then [] else x[1..] }

  /** Element by element, the shorter list continued by a padding element. */
  function Lift<T>(cmp: (T, T) -> int, pad: T, x: seq<T>, y: seq<T>): int
    decreases |x| + |y|
  {
    if x == [] && y == [] then 0
    else if cmp(HeadOr(x, pad), HeadOr(y, pad)) != 0 then cmp(HeadOr(x, pad), HeadOr(y, pad))
    else Lift(cmp, pad, Rest(x), Rest(y))
  }

  lemma {:induction false} LiftFlips<T(!new)>(cmp: (T, T) -> int, pad: T, x: seq<T>, y: seq<T>)
    requires Preorder(cmp)
    ensures Lift(cmp, pad, y, x) == -Lift(cmp, pad, x, y)
    decreases |x| + |y|
  {
    if x != [] || y != [] {
      assert cmp(HeadOr(y, pad), HeadOr(x, pad)) == -cmp(HeadOr(x, pad), HeadOr(y, pad));
      LiftFlips(cmp, pad, Rest(x), Rest(y));
    }
  }

  lemma {:induction false} LiftChains<T(!new)>(cmp: (T, T) -> int, pad: T, x: seq<T>, y: seq<T>, z: seq<T>)
    requires Preorder(cmp) && Lift(cmp, pad, x, y) <= 0 && Lift(cmp, pad, y, z) <= 0
    ensures Lift(cmp, pad, x, z) <= 0
    ensures Lift(cmp, pad, x, z) == 0 ==> Lift(cmp, pad, x, y) == 0 && Lift(cmp, pad, y, z) == 0
    decreases |x| + |y| + |z|
  {
    if x != [] || y != [] || z != [] {
      Unlifted(cmp, pad, x, y);
      Unlifted(cmp, pad, y, z);
      Unlifted(cmp, pad, x, z);
      var a, b, c := HeadOr(x, pad), HeadOr(y, pad), HeadOr(z, pad);
      assert cmp(a, b) <= 0 && cmp(b, c) <= 0;
      if cmp(a, b) == 0 && cmp(b, c) == 0 {
        assert cmp(b, a) == 0 && cmp(c, b) == 0 && cmp(c, a) <= 0 && cmp(a, c) == -cmp(c, a);
        LiftChains(cmp, pad, Rest(x), Rest(y), Rest(z));
      } else {
        assert cmp(a, c) < 0;
      }
    }
  }

  /** Padding both changes nothing. */
  lemma Unlifted<T(!new)>(cmp: (T, T) -> int, pad: T, x: seq<T>, y: seq<T>)
    requires Preorder(cmp)
    ensures var c := cmp(HeadOr(x, pad), HeadOr(y, pad));
      Lift(cmp, pad, x, y) == if c != 0 then c else Lift(cmp, pad, Rest(x), Rest(y))
  {
    assert cmp(pad, pad) == -cmp(pad, pad);
  }

  function Lifted<T>(cmp: (T, T) -> int, pad: T): (seq<T>, seq<T>) -> int { (x, y) => Lift(cmp, pad, x, y) }

  lemma LiftedPreorder<T(!new)>(cmp: (T, T) -> int, pad: T)
    requires Preorder(cmp)
    ensures Preorder(Lifted(cmp, pad))
  {
    hide Preorder, Lift;
    var l := Lifted(cmp, pad);
    assert Preorder(l) by {
      forall x, y ensures l(y, x) == -l(x, y) {
        LiftFlips(cmp, pad, x, y);
      }
      forall x, y, z | l(x, y) <= 0 && l(y, z) <= 0 ensures l(x, z) <= 0 && (l(x, z) == 0 ==> l(x, y) == 0 && l(y, z) == 0) {
        LiftChains(cmp, pad, x, y, z);
      }
      IsPreorder(l);
    }
  }

  lemma IsPreorder<T(!new)>(cmp: (T, T) -> int)
    requires forall a, b :: cmp(b, a) == -cmp(a, b)
    requires forall a, b, c :: cmp(a, b) <= 0 && cmp(b, c) <= 0 ==> cmp(a, c) <= 0 && (cmp(a, c) == 0 ==> cmp(a, b) == 0 && cmp(b, c) == 0)
    ensures Preorder(cmp)
  {
  }

  // ---- versions ----

  predicate IsNumber(run: Data) { run != [] && IsDigit(run[0]) }

  const ZERO: Data := [0x30]
  const DEV: Data := [0x64, 0x65, 0x76]

  function TrimZeros(s: Data): Data { if s != [] && s[0] == 0x30 then TrimZeros(s[1..]) else s }

  /** condaCompareNumericRuns: without leading zeros the longer is larger, whatever its length. */
  function NumberOrder(a: Data, b: Data): int
  {
    var x, y := TrimZeros(a), TrimZeros(b);
    if |x| != |y| then Sign(|x| - |y|) else Text(x, y)
  }

  /** condaCompareRuns. */
  function RunOrder(a: Data, b: Data): int
  {
    if IsNumber(a) && IsNumber(b) then NumberOrder(a, b)
    else if IsNumber(a) then 1
    else if IsNumber(b) then -1
    else if a == b then 0
    else if a == DEV then -1
    else if b == DEV then 1
    else Text(a, b)
  }

  function RunLength(s: Data): (n: nat)
    ensures s != [] ==> 0 < n <= |s|
    ensures forall i | 0 <= i < n <= |s| :: IsDigit(s[i]) == IsDigit(s[0])
    ensures n < |s| ==> IsDigit(s[n]) != IsDigit(s[0])
  {
    if s == [] then 0
    else if |s| == 1 || IsDigit(s[1]) != IsDigit(s[0]) then 1
    else 1 + RunLength(s[1..])
  }

  /** The maximal runs of digits and of other characters. */
  function Runs(s: Data): (runs: seq<Data>)
    ensures forall r | r in runs :: r != []
    decreases |s|
  {
    if s == [] then [] else [s[..RunLength(s)]] + Runs(s[RunLength(s)..])
  }

  function SegmentOrder(a: Data, b: Data): int { Lift(RunOrder, ZERO, Runs(a), Runs(b)) }

  predicate IsSeparator(c: u8) { c == 0x2e || c == 0x5f || c == 0x2d }

  function FieldLength(s: Data): (n: nat)
    ensures n <= |s|
  {
    if s == [] || IsSeparator(s[0]) then 0 else 1 + FieldLength(s[1..])
  }

  /** The segments between separators, none empty. */
  function Fields(s: Data): seq<Data>
    decreases |s|
  {
    if s == [] then []
    else if IsSeparator(s[0]) then Fields(s[1..])
    else assert FieldLength(s) > 0; [s[..FieldLength(s)]] + Fields(s[FieldLength(s)..])
  }

  datatype Version = Version(epoch: Data, segments: seq<Data>)

  function CutLength(s: Data): (n: nat)
    ensures n <= |s| && (n < |s| ==> s[n] == 0x21)
  {
    if s == [] || s[0] == 0x21 then 0 else 1 + CutLength(s[1..])
  }

  /** The epoch before "!", zero without one, and the lower-cased segments after it. */
  function VersionOf(lower: Data -> Data, v: Data): Version
  {
    var n := CutLength(v);
    if n < |v| then Version(v[..n], Fields(lower(v[n + 1..]))) else Version(ZERO, Fields(lower(v)))
  }

  function Order(v: Version, w: Version): int
  {
    if NumberOrder(v.epoch, w.epoch) != 0 then NumberOrder(v.epoch, w.epoch)
    else Lift(SegmentOrder, ZERO, v.segments, w.segments)
  }

  function VersionOrder(lower: Data -> Data, a: Data, b: Data): int { Order(VersionOf(lower, a), VersionOf(lower, b)) }

  lemma NumbersOrdered()
    ensures Preorder(NumberOrder)
  {
    hide Text;
    forall a, b ensures NumberOrder(b, a) == -NumberOrder(a, b) {
      TextFlips(TrimZeros(a), TrimZeros(b));
    }
    forall a, b, c | NumberOrder(a, b) <= 0 && NumberOrder(b, c) <= 0
      ensures NumberOrder(a, c) <= 0 && (NumberOrder(a, c) == 0 ==> NumberOrder(a, b) == 0 && NumberOrder(b, c) == 0)
    {
      var x, y, z := TrimZeros(a), TrimZeros(b), TrimZeros(c);
      if |x| == |y| == |z| {
        TextChains(x, y, z);
      }
    }
    IsPreorder(NumberOrder);
  }

  /** Tags below numbers, "dev" below all other tags. */
  lemma RunsOrdered()
    ensures Preorder(RunOrder)
  {
    hide Text, NumberOrder;
    NumbersOrdered();
    forall a, b ensures RunOrder(b, a) == -RunOrder(a, b) {
      TextFlips(a, b);
      assert NumberOrder(b, a) == -NumberOrder(a, b);
    }
    forall a, b, c | RunOrder(a, b) <= 0 && RunOrder(b, c) <= 0
      ensures RunOrder(a, c) <= 0 && (RunOrder(a, c) == 0 ==> RunOrder(a, b) == 0 && RunOrder(b, c) == 0)
    {
      RunsChain(a, b, c);
    }
    IsPreorder(RunOrder);
  }

  lemma RunsChain(a: Data, b: Data, c: Data)
    requires RunOrder(a, b) <= 0 && RunOrder(b, c) <= 0
    ensures RunOrder(a, c) <= 0 && (RunOrder(a, c) == 0 ==> RunOrder(a, b) == 0 && RunOrder(b, c) == 0)
  {
    hide Text, NumberOrder;
    TextFlips(a, b);
    TextFlips(b, c);
    TextFlips(a, c);
    if IsNumber(a) && IsNumber(b) && IsNumber(c) {
      NumbersOrdered();
      assert NumberOrder(a, c) <= 0;
    } else if !IsNumber(a) && !IsNumber(b) && !IsNumber(c) && a != DEV && b != DEV && c != DEV {
      TextChains(a, b, c);
    }
  }

  lemma SegmentsOrdered()
    ensures Preorder(SegmentOrder)
  {
    RunsOrdered();
    LiftedPreorder(RunOrder, ZERO);
    hide Lift, RunOrder;
    var l := Lifted(RunOrder, ZERO);
    assert forall a, b :: SegmentOrder(a, b) == l(Runs(a), Runs(b));
    IsPreorder(SegmentOrder);
  }

  /** The order of versions is a total preorder. */
  lemma VersionsOrdered(v: Version, w: Version, x: Version)
    ensures Order(w, v) == -Order(v, w)
    ensures Order(v, w) <= 0 && Order(w, x) <= 0 ==>
      Order(v, x) <= 0 && (Order(v, x) == 0 ==> Order(v, w) == 0 && Order(w, x) == 0)
  {
    hide Lift, RunOrder, NumberOrder, SegmentOrder;
    NumbersOrdered();
    SegmentsOrdered();
    LiftFlips(SegmentOrder, ZERO, v.segments, w.segments);
    assert NumberOrder(w.epoch, v.epoch) == -NumberOrder(v.epoch, w.epoch);
    if Order(v, w) <= 0 && Order(w, x) <= 0 {
      assert NumberOrder(v.epoch, w.epoch) <= 0 && NumberOrder(w.epoch, x.epoch) <= 0;
      if NumberOrder(v.epoch, w.epoch) == 0 && NumberOrder(w.epoch, x.epoch) == 0 {
        LiftChains(SegmentOrder, ZERO, v.segments, w.segments, x.segments);
      }
    }
  }

  // ---- what the order says ----

  /** Separators cut a version and are dropped; what has none is one segment, unless it is empty. */
  lemma {:induction false} FieldsCut(a: Data, c: u8, b: Data)
    requires c in {0x2e, 0x5f, 0x2d}
    ensures Fields(a + [c] + b) == Fields(a) + Fields(b)
    decreases |a|
  {
    var s := a + [c] + b;
    if a == [] {
      assert s[1..] == b;
    } else if IsSeparator(a[0]) {
      assert s[1..] == a[1..] + [c] + b;
      FieldsCut(a[1..], c, b);
    } else {
      var n := FieldLength(a);
      FieldAppend(a, c, b);
      assert s[..n] == a[..n] && s[n..] == a[n..] + [c] + b;
      FieldsCut(a[n..], c, b);
    }
  }

  lemma {:induction false} FieldAppend(a: Data, c: u8, b: Data)
    requires IsSeparator(c)
    ensures FieldLength(a + [c] + b) == FieldLength(a)
    decreases |a|
  {
    if a != [] && !IsSeparator(a[0]) {
      assert (a + [c] + b)[1..] == a[1..] + [c] + b;
      FieldAppend(a[1..], c, b);
    }
  }

  lemma {:induction false} FieldWhole(s: Data)
    requires s != [] && forall c | c in s :: c != 0x2e && c != 0x5f && c != 0x2d
    ensures Fields(s) == [s]
  {
    FieldAll(s);
    assert s[0] in s && s[..|s|] == s && s[|s|..] == [];
  }

  lemma {:induction false} FieldAll(s: Data)
    requires forall c | c in s :: !IsSeparator(c)
    ensures FieldLength(s) == |s|
  {
    if s != [] {
      assert s[0] in s;
      FieldAll(s[1..]);
    }
  }

  /** The epoch is what stands before the first "!"; without one it is zero. */
  lemma {:induction false} EpochCut(lower: Data -> Data, e: Data, rest: Data)
    requires forall c | c in e :: c != 0x21
    ensures VersionOf(lower, e + [0x21] + rest) == Version(e, Fields(lower(rest)))
    ensures VersionOf(lower, e) == Version([0x30], Fields(lower(e)))
  {
    hide Fields;
    CutAt(e, [0x21] + rest);
    CutAt(e, []);
    var v := e + [0x21] + rest;
    assert v == e + ([0x21] + rest) && v[..|e|] == e && v[|e| + 1..] == rest && e + [] == e;
  }

  lemma {:induction false} CutAt(e: Data, rest: Data)
    requires (forall c | c in e :: c != 0x21) && (rest == [] || rest[0] == 0x21)
    ensures CutLength(e + rest) == |e|
  {
    if e != [] {
      assert e[0] in e && (e + rest)[1..] == e[1..] + rest && forall c | c in e[1..] :: c in e;
      CutAt(e[1..], rest);
    }
  }

  /** Joined runs are the segment, each is of digits or of other characters only, and neighbours differ. */
  lemma {:induction false} RunsJoin(s: Data)
    ensures Joined(Runs(s)) == s
    ensures forall k | 0 <= k < |Runs(s)| :: Runs(s)[k] != [] && OneKind(Runs(s)[k])
    ensures forall k | 0 <= k < |Runs(s)| - 1 :: IsDigit(Runs(s)[k][0]) != IsDigit(Runs(s)[k + 1][0])
    decreases |s|
  {
    hide OneKind, RunLength;
    if s != [] {
      var n := RunLength(s);
      var rest := Runs(s[n..]);
      RunsJoin(s[n..]);
      FirstRun(s);
      assert Runs(s) == [s[..n]] + rest && s == s[..n] + s[n..];
      FirstOfRest(s[n..]);
    }
  }

  ghost predicate OneKind(run: Data)
  {
    (forall c | c in run :: 0x30 <= c <= 0x39) || (forall c | c in run :: !(0x30 <= c <= 0x39))
  }

  lemma FirstRun(s: Data)
    requires s != []
    ensures var n := RunLength(s);
      0 < n <= |s| && OneKind(s[..n]) && (n < |s| ==> IsDigit(s[n]) != IsDigit(s[0]))
  {
    var n := RunLength(s);
    forall c | c in s[..n] ensures IsDigit(c) == IsDigit(s[0]) {
      var i :| 0 <= i < n && s[..n][i] == c;
    }
  }

  lemma FirstOfRest(s: Data)
    ensures s != [] ==> Runs(s) != [] && Runs(s)[0] != [] && Runs(s)[0][0] == s[0]
  {
  }

  function Joined(runs: seq<Data>): Data { if runs == [] then [] else runs[0] + Joined(runs[1..]) }

  lemma {:induction false} TrimmedValue(run: Data)
    requires AllDigits(run)
    ensures var t := TrimZeros(run);
      AllDigits(t) && Value(t) == Value(run) && (t != [] ==> t[0] != 0x30)
  {
    if run != [] && run[0] == 0x30 {
      ZerosFirst(run, 1);
      TrimmedValue(run[1..]);
    }
  }

  /** Runs of digits compare by what they stand for, whatever their lengths and leading zeros. */
  lemma NumbersByValue(a: Data, b: Data)
    requires AllDigits(a) && AllDigits(b)
    ensures NumberOrder(a, b) == Sign(Value(a) - Value(b))
  {
    hide Text, Value;
    TrimmedValue(a);
    TrimmedValue(b);
    var x, y := TrimZeros(a), TrimZeros(b);
    if |x| == |y| {
      SameLength(x, y);
    } else if |x| < |y| {
      LongerIsGreater(y, x);
    } else {
      LongerIsGreater(x, y);
    }
  }

  /** The epochs decide first, a missing one being zero. */
  lemma EpochsDecide(lower: Data -> Data, a: Data, b: Data)
    requires AllDigits(VersionOf(lower, a).epoch) && AllDigits(VersionOf(lower, b).epoch)
    requires Value(VersionOf(lower, a).epoch) < Value(VersionOf(lower, b).epoch)
    ensures VersionOrder(lower, a, b) < 0 && VersionOrder(lower, b, a) > 0
  {
    hide Lift, NumberOrder, VersionOf;
    NumbersByValue(VersionOf(lower, a).epoch, VersionOf(lower, b).epoch);
    NumbersByValue(VersionOf(lower, b).epoch, VersionOf(lower, a).epoch);
  }

  /** Same epochs, and the same segments before the i-th and runs before the k-th of it, where missing ones
      read as the number zero. */
  ghost predicate AgreeUpto(x: Version, y: Version, i: nat, k: nat)
  {
    && AllDigits(x.epoch) && AllDigits(y.epoch) && Value(x.epoch) == Value(y.epoch)
    && (forall n: nat | n < i :: At(x.segments, n) == At(y.segments, n))
    && (forall n: nat | n < k :: At(Runs(At(x.segments, i)), n) == At(Runs(At(y.segments, i)), n))
    && (i < |x.segments| || i < |y.segments|) && (k < |Runs(At(x.segments, i))| || k < |Runs(At(y.segments, i))|)
  }

  function RunAt(x: Version, i: nat, k: nat): (run: Data)
    ensures run != []
  {
    NoEmptyRun(At(x.segments, i), k);
    At(Runs(At(x.segments, i)), k)
  }

  /** The first runs that differ decide: numbers by value, a tag below every number and below a missing run,
      "dev" below every other tag, other tags as text. */
  lemma FirstRunsDecide(lower: Data -> Data, a: Data, b: Data, i: nat, k: nat)
    requires AgreeUpto(VersionOf(lower, a), VersionOf(lower, b), i, k)
    ensures var p, q := RunAt(VersionOf(lower, a), i, k), RunAt(VersionOf(lower, b), i, k);
      && (AllDigits(p) && AllDigits(q) && Value(p) < Value(q) ==> VersionOrder(lower, a, b) < 0 && VersionOrder(lower, b, a) > 0)
      && (!IsDigit(p[0]) && IsDigit(q[0]) ==> VersionOrder(lower, a, b) < 0 && VersionOrder(lower, b, a) > 0)
      && (!IsDigit(p[0]) && !IsDigit(q[0]) && p != q && (p == [0x64, 0x65, 0x76] || (q != [0x64, 0x65, 0x76] && TextBelow(p, q))) ==>
            VersionOrder(lower, a, b) < 0 && VersionOrder(lower, b, a) > 0)
  {
    hide Lift, NumberOrder, VersionOf, Runs, Text, TextBelow, AllDigits, RunOrder;
    var x, y := VersionOf(lower, a), VersionOf(lower, b);
    var p, q := RunAt(x, i, k), RunAt(y, i, k);
    NumbersByValue(x.epoch, y.epoch);
    NumbersByValue(y.epoch, x.epoch);
    NoEmptyRun(At(x.segments, i), k);
    NoEmptyRun(At(y.segments, i), k);
    RunsOrdered();
    SegmentsOrdered();
    RunsDecide(p, q);
    if RunOrder(p, q) < 0 {
      LiftAt(RunOrder, Runs(At(x.segments, i)), Runs(At(y.segments, i)), k);
      LiftAt(SegmentOrder, x.segments, y.segments, i);
      VersionsOrdered(x, y, x);
    }
  }

  lemma RunsDecide(p: Data, q: Data)
    requires p != [] && q != []
    ensures AllDigits(p) && AllDigits(q) && Value(p) < Value(q) ==> RunOrder(p, q) < 0
    ensures !IsDigit(p[0]) && IsDigit(q[0]) ==> RunOrder(p, q) < 0
    ensures !IsDigit(p[0]) && !IsDigit(q[0]) && p != q && (p == [0x64, 0x65, 0x76] || (q != [0x64, 0x65, 0x76] && TextBelow(p, q))) ==>
      RunOrder(p, q) < 0
  {
    hide NumberOrder, Text, Value;
    if AllDigits(p) && AllDigits(q) {
      NumbersByValue(p, q);
    }
    TextIs(p, q);
  }

  /** The first difference decides a lifted comparison. */
  lemma {:induction false} LiftAt(cmp: (Data, Data) -> int, x: seq<Data>, y: seq<Data>, k: nat)
    requires Preorder(cmp) && (k < |x| || k < |y|) && forall n: nat | n < k :: At(x, n) == At(y, n)
    ensures cmp(At(x, k), At(y, k)) != 0 ==> Lift(cmp, ZERO, x, y) == cmp(At(x, k), At(y, k))
    decreases k
  {
    assert cmp(At(x, 0), At(x, 0)) == -cmp(At(x, 0), At(x, 0));
    assert HeadOr(x, ZERO) == At(x, 0) && HeadOr(y, ZERO) == At(y, 0);
    if k > 0 {
      assert forall n: nat :: At(Rest(x), n) == At(x, n + 1) && At(Rest(y), n) == At(y, n + 1);
      LiftAt(cmp, Rest(x), Rest(y), k - 1);
    }
  }

  // ---- the comparison, in loops ----

  /** condaSegmentRuns. */
  method SegmentRuns(seg: Data) returns (runs: seq<Data>)
    ensures runs == Runs(seg)
  {
    hide RunLength, Runs;
    runs := [];
    var start := 0;
    assert seg[0..] == seg;
    NoRuns(seg);
    for i := 1 to |seg| + 1
      invariant start < i && (i <= |seg| ==> SameKind(seg, start, i)) && (start == |seg| <==> i == |seg| + 1)
      invariant start <= |seg| && runs + Runs(seg[start..]) == Runs(seg)
    {
      if i == |seg| || IsDigit(seg[i]) != IsDigit(seg[start]) {
        OneRun(seg, start, i);
        runs := runs + [seg[start..i]];
        start := i;
      }
    }
    NoRuns(seg[start..]);
  }

  ghost predicate SameKind(s: Data, start: nat, i: nat)
  {
    start < i <= |s| && forall j | start <= j < i :: IsDigit(s[j]) == IsDigit(s[start])
  }

  lemma NoRuns(s: Data)
    ensures s == [] ==> Runs(s) == []
  {
  }

  lemma OneRun(s: Data, start: nat, i: nat)
    requires SameKind(s, start, i) && (i == |s| || IsDigit(s[i]) != IsDigit(s[start]))
    ensures Runs(s[start..]) == [s[start..i]] + Runs(s[i..])
  {
    var t, n := s[start..], i - start;
    assert forall j | 0 <= j < n :: t[j] == s[start + j];
    assert n < |t| ==> t[n] == s[i];
    RunIs(t, n);
    assert t[..n] == s[start..i] && t[n..] == s[i..];
  }

  lemma {:induction false} RunIs(s: Data, n: nat)
    requires 0 < n <= |s| && (forall j | 0 <= j < n :: IsDigit(s[j]) == IsDigit(s[0])) && (n == |s| || IsDigit(s[n]) != IsDigit(s[0]))
    ensures RunLength(s) == n
  {
    if n > 1 {
      assert forall j | 0 <= j < n - 1 :: s[1..][j] == s[j + 1];
      RunIs(s[1..], n - 1);
    }
  }

  function At(parts: seq<Data>, i: nat): Data { if i < |parts| then parts[i] else ZERO }

  /** condaCompareRuns; it looks at the first character of a run, and no run is empty. */
  method CompareRuns(a: Data, b: Data) returns (c: int)
    requires a != [] && b != []
    ensures c == RunOrder(a, b)
  {
    hide Text, NumberOrder;
    var aNum, bNum := IsDigit(a[0]), IsDigit(b[0]);
    if aNum && bNum {
      return NumberOrder(a, b);
    }
    if aNum {
      return 1;
    }
    if bNum {
      return -1;
    }
    if a == b {
      return 0;
    }
    if a == DEV {
      return -1;
    }
    if b == DEV {
      return 1;
    }
    TextFlips(a, b);
    c := if Text(a, b) < 0 then -1 else 1;
  }

  /** condaCompareSegments. */
  method CompareSegments(a: Data, b: Data) returns (c: int)
    ensures c == SegmentOrder(a, b)
  {
    hide RunOrder, Lift;
    var ar := SegmentRuns(a);
    var br := SegmentRuns(b);
    var i := 0;
    assert ar[0..] == ar && br[0..] == br;
    while i < |ar| || i < |br|
      invariant i <= |ar| || i <= |br|
      invariant Lift(RunOrder, ZERO, ar, br) == Lift(RunOrder, ZERO, From(ar, i), From(br, i))
      decreases |ar| + |br| - i
    {
      FromStep(RunOrder, ar, br, i);
      NoEmptyRun(a, i);
      NoEmptyRun(b, i);
      c := CompareRuns(At(ar, i), At(br, i));
      if c != 0 {
        return;
      }
      i := i + 1;
    }
    FromEnd(RunOrder, ar, br, i);
    c := 0;
  }

  lemma NoEmptyRun(s: Data, i: nat)
    ensures At(Runs(s), i) != []
  {
    assert i < |Runs(s)| ==> Runs(s)[i] in Runs(s);
  }

  function From(parts: seq<Data>, i: nat): seq<Data> { if i <= |parts| then parts[i..] else [] }

  lemma FromStep(cmp: (Data, Data) -> int, x: seq<Data>, y: seq<Data>, i: nat)
    requires i < |x| || i < |y|
    ensures Lift(cmp, ZERO, From(x, i), From(y, i)) ==
      if cmp(At(x, i), At(y, i)) != 0 then cmp(At(x, i), At(y, i)) else Lift(cmp, ZERO, From(x, i + 1), From(y, i + 1))
  {
    assert HeadOr(From(x, i), ZERO) == At(x, i) && HeadOr(From(y, i), ZERO) == At(y, i);
    assert Rest(From(x, i)) == From(x, i + 1) && Rest(From(y, i)) == From(y, i + 1);
  }

  lemma FromEnd(cmp: (Data, Data) -> int, x: seq<Data>, y: seq<Data>, i: nat)
    requires i >= |x| && i >= |y|
    ensures Lift(cmp, ZERO, From(x, i), From(y, i)) == 0
  {
  }

  /** condaCompareVersions. */
  method CompareVersions(lower: Data -> Data, a: Data, b: Data) returns (c: int)
    ensures c == VersionOrder(lower, a, b)
  {
    hide SegmentOrder, Lift, NumberOrder, VersionOf;
    var v, w := VersionOf(lower, a), VersionOf(lower, b);
    c := NumberOrder(v.epoch, w.epoch);
    if c != 0 {
      return;
    }
    var i := 0;
    assert v.segments[0..] == v.segments && w.segments[0..] == w.segments;
    while i < |v.segments| || i < |w.segments|
      invariant i <= |v.segments| || i <= |w.segments|
      invariant Lift(SegmentOrder, ZERO, v.segments, w.segments) ==
        Lift(SegmentOrder, ZERO, From(v.segments, i), From(w.segments, i))
      decreases |v.segments| + |w.segments| - i
    {
      FromStep(SegmentOrder, v.segments, w.segments, i);
      c := CompareSegments(At(v.segments, i), At(w.segments, i));
      if c != 0 {
        return;
      }
      i := i + 1;
    }
    FromEnd(SegmentOrder, v.segments, w.segments, i);
    c := 0;
  }

  // ---- constraints ----

  datatype Op = Any | Prefix | Equal | NotEqual | Above | AtLeast | Below | AtMost

  datatype Constraint = Constraint(op: Op, version: Data)

  /** condaConstraintMatches. */
  predicate Meets(lower: Data -> Data, c: Constraint, v: Data)
  {
    match c.op
    case Any => true
    case Prefix => v == c.version || c.version + [0x2e] <= v
    case Equal => VersionOrder(lower, v, c.version) == 0
    case NotEqual => VersionOrder(lower, v, c.version) != 0
    case Above => VersionOrder(lower, v, c.version) > 0
    case AtLeast => VersionOrder(lower, v, c.version) >= 0
    case Below => VersionOrder(lower, v, c.version) < 0
    case AtMost => VersionOrder(lower, v, c.version) <= 0
  }

  /** Comparators other than a prefix do not see how a version is written: equal versions meet the same. */
  lemma EqualMeetSame(lower: Data -> Data, c: Constraint, v: Data, w: Data)
    requires c.op != Prefix && VersionOrder(lower, v, w) == 0
    ensures Meets(lower, c, v) == Meets(lower, c, w)
  {
    hide Order, VersionOf;
    var x, y, z := VersionOf(lower, v), VersionOf(lower, w), VersionOf(lower, c.version);
    VersionsOrdered(x, y, z);
    VersionsOrdered(y, x, z);
    VersionsOrdered(z, x, y);
    VersionsOrdered(z, y, x);
    VersionsOrdered(x, z, y);
    VersionsOrdered(y, z, x);
  }

  /** Any version meets "*"; a version is below, equal to or above another, and the comparators say which. */
  lemma ComparatorsMean(lower: Data -> Data, v: Data, w: Data)
    ensures Meets(lower, Constraint(Any, w), v)
    ensures Meets(lower, Constraint(Below, w), v) <==> VersionOrder(lower, v, w) < 0
    ensures Meets(lower, Constraint(Above, w), v) <==> Meets(lower, Constraint(Below, v), w)
    ensures Meets(lower, Constraint(AtMost, w), v) <==> !Meets(lower, Constraint(Above, w), v)
    ensures Meets(lower, Constraint(AtLeast, w), v) <==> !Meets(lower, Constraint(Below, w), v)
    ensures Meets(lower, Constraint(Equal, w), v) <==>
      Meets(lower, Constraint(AtMost, w), v) && Meets(lower, Constraint(AtLeast, w), v)
    ensures Meets(lower, Constraint(NotEqual, w), v) <==> !Meets(lower, Constraint(Equal, w), v)
    ensures Meets(lower, Constraint(Equal, v), v)
  {
    hide Order, VersionOf;
    VersionsOrdered(VersionOf(lower, v), VersionOf(lower, w), VersionOf(lower, v));
    VersionsOrdered(VersionOf(lower, v), VersionOf(lower, v), VersionOf(lower, v));
  }

  /** A prefix takes the version itself and whatever continues it after a dot: "1.2" takes 1.2.9, never 1.20. */
  lemma PrefixMeans(lower: Data -> Data, w: Data, v: Data)
    ensures Meets(lower, Constraint(Prefix, w), v) <==> v == w || exists rest :: v == w + [0x2e] + rest
  {
    if w + [0x2e] <= v {
      assert v == w + [0x2e] + v[|w| + 1..];
    }
  }

  // ---- choosing a candidate ----

  datatype Dep = Virtual | Unparsable(text: string) | Edge(want: Want)

  datatype Candidate = Candidate(
    subdir: Data, filename: Data, name: string, version: Data, build: string, buildNumber: int, sha: string, depends: seq<Dep>)

  datatype Want = Want(name: string, constraints: seq<Constraint>, build: string, desc: string)

  /** What the candidates of a name are told apart by. */
  predicate SameFile(a: Candidate, b: Candidate) { a.subdir == b.subdir && a.filename == b.filename }

  ghost predicate Distinct(cands: seq<Candidate>)
  {
    forall i, j | 0 <= i < j < |cands| :: !SameFile(cands[i], cands[j])
  }

  /** condaCandidateLess. */
  predicate Less(lower: Data -> Data, a: Candidate, b: Candidate)
  {
    var c := VersionOrder(lower, a.version, b.version);
    if c != 0 then c < 0
    else if a.buildNumber != b.buildNumber then a.buildNumber < b.buildNumber
    else if a.subdir != b.subdir then Text(a.subdir, b.subdir) > 0
    else Text(a.filename, b.filename) > 0
  }

  /** The order of candidates is a strict total order, but for those of the same file. */
  lemma CandidatesOrdered(lower: Data -> Data, a: Candidate, b: Candidate, c: Candidate)
    ensures !(Less(lower, a, b) && Less(lower, b, a))
    ensures SameFile(a, b) || Less(lower, a, b) || Less(lower, b, a)
    ensures Less(lower, a, b) && Less(lower, b, c) ==> Less(lower, a, c)
  {
    hide Text, Order, VersionOf;
    var u, v, w := VersionOf(lower, a.version), VersionOf(lower, b.version), VersionOf(lower, c.version);
    VersionsOrdered(u, v, w);
    VersionsOrdered(v, w, u);
    VersionsOrdered(w, v, u);
    VersionsOrdered(u, w, v);
    VersionsOrdered(v, u, w);
    TextFlips(a.subdir, b.subdir);
    TextFlips(a.filename, b.filename);
    TextDown(a.subdir, b.subdir, c.subdir);
    TextDown(a.filename, b.filename, c.filename);
  }

  lemma TextDown(a: Data, b: Data, c: Data)
    ensures Text(a, b) > 0 && Text(b, c) > 0 ==> Text(a, c) > 0
    ensures a != b ==> Text(a, b) != 0
  {
    hide Text;
    TextFlips(a, b);
    TextFlips(b, c);
    TextFlips(a, c);
    if Text(a, b) > 0 && Text(b, c) > 0 {
      TextChains(c, b, a);
    }
  }

  predicate Suits(lower: Data -> Data, c: Candidate, w: Want)
  {
    (forall k | k in w.constraints :: Meets(lower, k, c.version)) && (w.build != "" ==> c.build == w.build)
  }

  /** The best so far, candidate by candidate. */
  function Best(lower: Data -> Data, cands: seq<Candidate>, w: Want): (best: Option<Candidate>)
    ensures best.Some? ==> best.value in cands && Suits(lower, best.value, w)
  {
    if cands == [] then None
    else
      var before, c := Best(lower, cands[..|cands| - 1], w), cands[|cands| - 1];
      if Suits(lower, c, w) && (before.None? || Less(lower, before.value, c)) then Some(c) else before
  }

  /** It is the greatest that suits. */
  lemma {:induction false} BestIsGreatest(lower: Data -> Data, cands: seq<Candidate>, w: Want)
    requires Distinct(cands)
    ensures var best := Best(lower, cands, w);
      forall c | c in cands && Suits(lower, c, w) :: best.Some? && (c == best.value || Less(lower, c, best.value))
  {
    hide Less, Suits;
    if cands != [] {
      var n := |cands| - 1;
      BestIsGreatest(lower, cands[..n], w);
      var before, best := Best(lower, cands[..n], w), Best(lower, cands, w);
      forall c | c in cands && Suits(lower, c, w) ensures best.Some? && (c == best.value || Less(lower, c, best.value)) {
        var i :| 0 <= i < |cands| && cands[i] == c;
        if i < n {
          assert c in cands[..n];
          CandidatesOrdered(lower, c, before.value, cands[n]);
        } else if before.Some? {
          var k :| 0 <= k < n && cands[..n][k] == before.value;
          CandidatesOrdered(lower, before.value, c, c);
          assert !SameFile(cands[k], cands[n]);
        }
      }
    }
  }

  /** A candidate suits a want exactly if it meets all its constraints and has its build, if it names one. */
  lemma SuitsMeans(lower: Data -> Data, c: Candidate, w: Want)
    ensures Suits(lower, c, w) <==>
      (c.build == w.build || w.build == "") && forall i | 0 <= i < |w.constraints| :: Meets(lower, w.constraints[i], c.version)
  {
    hide Meets;
    assert forall i | 0 <= i < |w.constraints| :: w.constraints[i] in w.constraints;
  }

  /** The best has the highest version that suits, and of that the highest build number, and of those the
      first subdirectory and file name. */
  lemma BestIsNewest(lower: Data -> Data, cands: seq<Candidate>, w: Want, c: Candidate)
    requires Distinct(cands) && c in cands && Suits(lower, c, w)
    ensures Best(lower, cands, w).Some?
    ensures var best := Best(lower, cands, w).value;
      && VersionOrder(lower, c.version, best.version) <= 0
      && (VersionOrder(lower, c.version, best.version) == 0 ==>
            && c.buildNumber <= best.buildNumber
            && (c.buildNumber == best.buildNumber ==> c.subdir == best.subdir || TextBelow(best.subdir, c.subdir))
            && (c.buildNumber == best.buildNumber && c.subdir == best.subdir ==>
                  c.filename == best.filename || TextBelow(best.filename, c.filename)))
  {
    hide Text, Order, VersionOf, Suits, TextBelow;
    BestIsGreatest(lower, cands, w);
    var best := Best(lower, cands, w).value;
    VersionsOrdered(VersionOf(lower, c.version), VersionOf(lower, best.version), VersionOf(lower, c.version));
    VersionsOrdered(VersionOf(lower, c.version), VersionOf(lower, c.version), VersionOf(lower, c.version));
    TextIs(best.subdir, c.subdir);
    TextIs(best.filename, c.filename);
    TextFlips(best.subdir, c.subdir);
    TextFlips(best.filename, c.filename);
  }

  /** The same candidates in any order. */
  ghost predicate SameCandidates(a: seq<Candidate>, b: seq<Candidate>)
  {
    Distinct(a) && Distinct(b) && forall c :: c in a <==> c in b
  }

  lemma BestAnyOrder(lower: Data -> Data, a: seq<Candidate>, b: seq<Candidate>, w: Want)
    requires SameCandidates(a, b)
    ensures Best(lower, a, w) == Best(lower, b, w)
  {
    hide Less, Suits;
    BestIsGreatest(lower, a, w);
    BestIsGreatest(lower, b, w);
    var x, y := Best(lower, a, w), Best(lower, b, w);
    if x.Some? && y.Some? {
      CandidatesOrdered(lower, x.value, y.value, x.value);
    }
  }

  /** pick: the best, refused without a checksum. */
  function Choice(lower: Data -> Data, cands: seq<Candidate>, w: Want): Option<Candidate>
  {
    var best := Best(lower, cands, w);
    if best.Some? && |best.value.sha| == 64 then best else None
  }

  method Pick(lower: Data -> Data, cands: seq<Candidate>, w: Want) returns (best: Option<Candidate>)
    ensures best == Choice(lower, cands, w)
    ensures best.Some? ==> best.value in cands && Suits(lower, best.value, w) && |best.value.sha| == 64
    ensures Distinct(cands) && best.Some? ==>
      forall c | c in cands && Suits(lower, c, w) :: c == best.value || Less(lower, c, best.value)
    ensures Distinct(cands) && best.Some? ==>
      forall c | c in cands && Suits(lower, c, w) ::
        && VersionOrder(lower, c.version, best.value.version) <= 0
        && (VersionOrder(lower, c.version, best.value.version) == 0 ==> c.buildNumber <= best.value.buildNumber)
    ensures Distinct(cands) && best.None? && (exists c :: c in cands && Suits(lower, c, w)) ==>
      exists c :: c in cands && Suits(lower, c, w) && |c.sha| != 64
  {
    hide Less, Suits, VersionOrder;
    best := None;
    for i := 0 to |cands|
      invariant best == Best(lower, cands[..i], w)
    {
      assert cands[..i + 1][..i] == cands[..i];
      if Suits(lower, cands[i], w) && (best.None? || Less(lower, best.value, cands[i])) {
        best := Some(cands[i]);
      }
    }
    assert cands[..|cands|] == cands;
    if Distinct(cands) {
      BestIsGreatest(lower, cands, w);
      forall c | c in cands && Suits(lower, c, w)
        ensures best.Some? && VersionOrder(lower, c.version, best.value.version) <= 0
        ensures VersionOrder(lower, c.version, best.value.version) == 0 ==> c.buildNumber <= best.value.buildNumber
      {
        BestIsNewest(lower, cands, w, c);
      }
    }
    if best.Some? && |best.value.sha| != 64 {
      best := None;
    }
  }

  // ---- the greedy resolver ----

  const MAX_RESOLVED := 4000

  datatype Failure = Failure(name: string, desc: string)

  type Index = map<string, seq<Candidate>>

  function CandidatesOf(idx: Index, name: string): seq<Candidate> { if name in idx then idx[name] else [] }

  /** Candidates are indexed by their name. */
  ghost predicate Named(idx: Index)
  {
    forall n | n in idx :: forall c | c in idx[n] :: c.name == n
  }

  /** depWants: the edges that are neither virtual nor of a name already selected. */
  function DepWants(deps: seq<Dep>, byName: set<string>): seq<Want>
  {
    if deps == [] then []
    else
      var before, d := DepWants(deps[..|deps| - 1], byName), deps[|deps| - 1];
      if d.Edge? && d.want.name !in byName then before + [d.want] else before
  }

  function DepFailures(name: string, deps: seq<Dep>): seq<Failure>
  {
    if deps == [] then []
    else
      var before, d := DepFailures(name, deps[..|deps| - 1]), deps[|deps| - 1];
      if d.Unparsable? then before + [Failure(name, d.text)] else before
  }

  datatype State = State(queue: seq<Want>, selected: seq<Candidate>, byName: set<string>, failed: seq<Failure>)

  /** A turn of the resolver's loop. */
  function Turn(lower: Data -> Data, idx: Index, noDeps: bool, s: State): State
    requires s.queue != []
  {
    var w, rest := s.queue[0], s.queue[1..];
    var c := Choice(lower, CandidatesOf(idx, w.name), w);
    if w.name in s.byName then s.(queue := rest)
    else if c.None? then s.(queue := rest, failed := s.failed + [Failure(w.name, w.desc)])
    else
      var names := s.byName + {w.name};
      State(rest + (if noDeps then [] else DepWants(c.value.depends, names)), s.selected + [c.value], names,
            s.failed + (if noDeps then [] else DepFailures(c.value.name, c.value.depends)))
  }

  function Run(lower: Data -> Data, idx: Index, noDeps: bool, s: State): State
    decreases MAX_RESOLVED - |s.selected|, |s.queue|
  {
    if s.queue == [] || |s.selected| >= MAX_RESOLVED then s
    else Run(lower, idx, noDeps, Turn(lower, idx, noDeps, s))
  }

  ghost predicate SameIndex(a: Index, b: Index)
  {
    forall n :: SameCandidates(CandidatesOf(a, n), CandidatesOf(b, n))
  }

  /** The order in which the index lists candidates does not matter to what is resolved. */
  lemma {:induction false} ResolvedAnyOrder(lower: Data -> Data, a: Index, b: Index, noDeps: bool, s: State)
    requires SameIndex(a, b)
    ensures Run(lower, a, noDeps, s) == Run(lower, b, noDeps, s)
    decreases MAX_RESOLVED - |s.selected|, |s.queue|
  {
    if s.queue != [] && |s.selected| < MAX_RESOLVED {
      var w := s.queue[0];
      BestAnyOrder(lower, CandidatesOf(a, w.name), CandidatesOf(b, w.name), w);
      hide Best;
      assert Turn(lower, a, noDeps, s) == Turn(lower, b, noDeps, s);
      ResolvedAnyOrder(lower, a, b, noDeps, Turn(lower, a, noDeps, s));
    }
  }

  /** What a resolution is asked to do. */
  datatype Task = Task(lower: Data -> Data, idx: Index, noDeps: bool, specs: seq<Want>)

  /** What a want gets. */
  function ChoiceFor(r: Task, w: Want): Option<Candidate> { Choice(r.lower, CandidatesOf(r.idx, w.name), w) }

  /** A spec, or an edge of a selected candidate. */
  ghost predicate Demanded(r: Task, selected: seq<Candidate>, w: Want)
  {
    w in r.specs || (!r.noDeps && exists i :: 0 <= i < |selected| && Edge(w) in selected[i].depends)
  }

  /** The name is selected, or the want has no choice and was reported. */
  ghost predicate Settled(r: Task, s: State, w: Want)
  {
    w.name in s.byName || (ChoiceFor(r, w) == None && Failure(w.name, w.desc) in s.failed)
  }

  /** The names of the selected, each once. */
  ghost predicate NamesOnce(s: State)
  {
    && (forall i | 0 <= i < |s.selected| :: s.selected[i].name in s.byName)
    && (forall n | n in s.byName :: exists i :: 0 <= i < |s.selected| && s.selected[i].name == n)
    && (forall i, j | 0 <= i < j < |s.selected| :: s.selected[i].name != s.selected[j].name)
    && |s.selected| <= MAX_RESOLVED
  }

  /** Every edge of every selected candidate is queued or settled. */
  ghost predicate EdgesMet(r: Task, s: State)
  {
    !r.noDeps ==> forall i, d | 0 <= i < |s.selected| && d in s.selected[i].depends :: DepMet(r, s, s.selected[i].name, d)
  }

  ghost predicate DepMet(r: Task, s: State, name: string, d: Dep)
  {
    match d
    case Virtual => true
    case Unparsable(text) => Failure(name, text) in s.failed
    case Edge(w) => w in s.queue || Settled(r, s, w)
  }

  /** Every candidate was selected for a want of its name that is a spec or an edge of one selected before
      it, and is the best for that want. */
  ghost predicate AllChosen(r: Task, s: State)
  {
    forall i | 0 <= i < |s.selected| :: Chosen(r, s.selected[..i], s.selected[i])
  }

  ghost predicate Chosen(r: Task, before: seq<Candidate>, c: Candidate)
  {
    exists w :: Demanded(r, before, w) && w.name == c.name && ChoiceFor(r, w) == Some(c)
  }

  lemma {:induction false} DepWantsAre(deps: seq<Dep>, byName: set<string>)
    ensures forall d | d in deps && d.Edge? :: d.want.name in byName || d.want in DepWants(deps, byName)
  {
    if deps != [] {
      DepWantsAre(deps[..|deps| - 1], byName);
    }
  }

  lemma {:induction false} DepFailuresAre(name: string, deps: seq<Dep>)
    ensures forall d | d in deps && d.Unparsable? :: Failure(name, d.text) in DepFailures(name, deps)
    ensures forall f | f in DepFailures(name, deps) :: f.name == name && Unparsable(f.desc) in deps
  {
    if deps != [] {
      DepFailuresAre(name, deps[..|deps| - 1]);
    }
  }

  /** Nothing but specs and edges of selected candidates is queued. */
  ghost predicate QueueDemanded(r: Task, s: State)
  {
    forall w | w in s.queue :: Demanded(r, s.selected, w)
  }

  ghost predicate StateOk(r: Task, s: State)
  {
    NamesOnce(s) && EdgesMet(r, s) && AllChosen(r, s) && AllJustified(r, s) && QueueDemanded(r, s)
  }

  /** What is reported is a demanded want without a choice, or an edge of a selected candidate that does
      not parse. */
  ghost predicate AllJustified(r: Task, s: State)
  {
    forall f | f in s.failed :: NoChoice(r, s.selected, f) || (!r.noDeps && BadEdge(s.selected, f))
  }

  ghost predicate NoChoice(r: Task, selected: seq<Candidate>, f: Failure)
  {
    exists w :: Demanded(r, selected, w) && w.name == f.name && w.desc == f.desc && ChoiceFor(r, w) == None
  }

  ghost predicate BadEdge(selected: seq<Candidate>, f: Failure)
  {
    exists i :: 0 <= i < |selected| && selected[i].name == f.name && Unparsable(f.desc) in selected[i].depends
  }

  function TurnOf(r: Task, s: State): State
    requires s.queue != []
  {
    Turn(r.lower, r.idx, r.noDeps, s)
  }

  /** A turn keeps all of that, and settles the want it takes. */
  lemma TurnOk(r: Task, s: State)
    requires Named(r.idx) && StateOk(r, s) && s.queue != [] && |s.selected| < MAX_RESOLVED
    ensures var t := TurnOf(r, s);
      && StateOk(r, t) && Settled(r, t, s.queue[0])
      && s.byName <= t.byName && (forall f | f in s.failed :: f in t.failed) && s.queue[1..] <= t.queue
  {
    TurnNames(r, s);
    TurnChoices(r, s);
    TurnFailures(r, s);
    TurnQueue(r, s);
    TurnEdges(r, s);
    hide Choice, NamesOnce, EdgesMet, AllChosen, AllJustified, QueueDemanded;
  }

  lemma TurnNames(r: Task, s: State)
    requires Named(r.idx) && NamesOnce(s) && s.queue != [] && |s.selected| < MAX_RESOLVED
    ensures NamesOnce(TurnOf(r, s))
  {
    hide Choice;
    var t, w := TurnOf(r, s), s.queue[0];
    var choice := ChoiceFor(r, w);
    ChoiceNamed(r, w);
    if choice.Some? && w.name !in s.byName {
      assert t.selected[|s.selected|] == choice.value;
      forall n | n in t.byName ensures exists i :: 0 <= i < |t.selected| && t.selected[i].name == n {
        if n in s.byName {
          var i :| 0 <= i < |s.selected| && s.selected[i].name == n;
          assert t.selected[i].name == n;
        }
      }
    }
  }

  lemma DemandedMore(r: Task, selected: seq<Candidate>, more: seq<Candidate>, w: Want)
    requires Demanded(r, selected, w) && selected <= more
    ensures Demanded(r, more, w)
  {
    if w !in r.specs {
      var i :| 0 <= i < |selected| && Edge(w) in selected[i].depends;
      assert more[i] == selected[i];
    }
  }

  lemma TurnChoices(r: Task, s: State)
    requires Named(r.idx) && AllChosen(r, s) && QueueDemanded(r, s) && s.queue != []
    ensures AllChosen(r, TurnOf(r, s))
  {
    hide Choice, Demanded;
    var t, w := TurnOf(r, s), s.queue[0];
    ChoiceNamed(r, w);
    forall i | 0 <= i < |t.selected| ensures Chosen(r, t.selected[..i], t.selected[i]) {
      assert t.selected[..i] == s.selected[..i];
      if i == |s.selected| {
        assert s.selected[..i] == s.selected;
        assert Demanded(r, s.selected, w) && ChoiceFor(r, w) == Some(t.selected[i]);
      }
    }
  }

  lemma TurnFailures(r: Task, s: State)
    requires AllJustified(r, s) && QueueDemanded(r, s) && s.queue != []
    ensures AllJustified(r, TurnOf(r, s))
  {
    hide Choice, Demanded;
    var t, w := TurnOf(r, s), s.queue[0];
    assert s.selected <= t.selected;
    if |t.selected| > |s.selected| {
      DepFailuresAre(t.selected[|s.selected|].name, t.selected[|s.selected|].depends);
    }
    forall f | f in t.failed ensures NoChoice(r, t.selected, f) || (!r.noDeps && BadEdge(t.selected, f)) {
      if f in s.failed {
        JustifiedMore(r, s.selected, t.selected, f);
      } else if |t.selected| == |s.selected| {
        assert Demanded(r, s.selected, w) && ChoiceFor(r, w) == None;
      }
    }
  }

  lemma JustifiedMore(r: Task, selected: seq<Candidate>, more: seq<Candidate>, f: Failure)
    requires NoChoice(r, selected, f) || (!r.noDeps && BadEdge(selected, f))
    requires selected <= more
    ensures NoChoice(r, more, f) || (!r.noDeps && BadEdge(more, f))
  {
    hide ChoiceFor, Demanded;
    if NoChoice(r, selected, f) {
      var w :| Demanded(r, selected, w) && w.name == f.name && w.desc == f.desc && ChoiceFor(r, w) == None;
      DemandedMore(r, selected, more, w);
    } else {
      var i :| 0 <= i < |selected| && selected[i].name == f.name && Unparsable(f.desc) in selected[i].depends;
      assert more[i] == selected[i];
    }
  }

  lemma TurnQueue(r: Task, s: State)
    requires QueueDemanded(r, s) && s.queue != []
    ensures QueueDemanded(r, TurnOf(r, s))
  {
    hide Choice;
    var t := TurnOf(r, s);
    assert s.selected <= t.selected;
    forall w | w in t.queue ensures Demanded(r, t.selected, w) {
      if w in s.queue {
        DemandedMore(r, s.selected, t.selected, w);
      } else {
        assert t.selected[|s.selected|] in t.selected;
        OnlyEdges(t.selected[|s.selected|].depends, t.byName);
      }
    }
  }

  lemma {:induction false} OnlyEdges(deps: seq<Dep>, byName: set<string>)
    ensures forall w | w in DepWants(deps, byName) :: Edge(w) in deps
  {
    if deps != [] {
      OnlyEdges(deps[..|deps| - 1], byName);
    }
  }

  lemma TurnEdges(r: Task, s: State)
    requires EdgesMet(r, s) && s.queue != []
    ensures EdgesMet(r, TurnOf(r, s)) && Settled(r, TurnOf(r, s), s.queue[0])
  {
    hide Choice;
    var t, w := TurnOf(r, s), s.queue[0];
    var choice := ChoiceFor(r, w);
    if choice.Some? && w.name !in s.byName {
      assert t.selected[|s.selected|] == choice.value;
      DepWantsAre(choice.value.depends, t.byName);
      DepFailuresAre(choice.value.name, choice.value.depends);
    }
    forall i, d | !r.noDeps && 0 <= i < |t.selected| && d in t.selected[i].depends ensures DepMet(r, t, t.selected[i].name, d) {
      if i < |s.selected| {
        assert DepMet(r, s, s.selected[i].name, d);
        if d.Edge? && d.want in s.queue {
          assert d.want == w || d.want in s.queue[1..];
        }
      }
    }
  }

  lemma ChoiceNamed(r: Task, w: Want)
    requires Named(r.idx)
    ensures var c := ChoiceFor(r, w);
      c.Some? ==> c.value.name == w.name && c.value in CandidatesOf(r.idx, w.name)
  {
  }

  /** When the demands run out below the cap, every spec and every edge of every selected candidate has its
      name selected or was reported for want of a choice; each name is selected once, for a demand made
      before, as the best candidate for it; and only demands without a choice and edges that do not parse
      are reported. */
  lemma {:induction false} RunSettles(r: Task, s: State)
    requires Named(r.idx) && StateOk(r, s)
    ensures var t := Run(r.lower, r.idx, r.noDeps, s);
      && StateOk(r, t) && (t.queue == [] || |t.selected| == MAX_RESOLVED)
      && s.byName <= t.byName && (forall f | f in s.failed :: f in t.failed)
      && forall w | w in s.queue :: w in t.queue || Settled(r, t, w)
    decreases MAX_RESOLVED - |s.selected|, |s.queue|
  {
    hide StateOk, Turn, ChoiceFor;
    if s.queue == [] || |s.selected| >= MAX_RESOLVED {
      Capped(r, s);
    } else {
      var t := TurnOf(r, s);
      TurnOk(r, s);
      TurnShrinks(r, s);
      RunSettles(r, t);
      var end := Run(r.lower, r.idx, r.noDeps, t);
      forall w | w in s.queue ensures w in end.queue || Settled(r, end, w) {
        assert w == s.queue[0] || w in s.queue[1..];
      }
    }
  }

  lemma Capped(r: Task, s: State)
    requires StateOk(r, s)
    ensures |s.selected| <= MAX_RESOLVED
  {
  }

  lemma TurnShrinks(r: Task, s: State)
    requires s.queue != []
    ensures var t := TurnOf(r, s);
      |t.selected| == |s.selected| + 1 || (|t.selected| == |s.selected| && |t.queue| < |s.queue|)
  {
  }

  class Resolver {
    const lower: Data -> Data
    const idx: Index
    const noDeps: bool
    var selected: seq<Candidate>
    var byName: set<string>
    var failed: seq<Failure>

    constructor (lower: Data -> Data, idx: Index, noDeps: bool)
      ensures this.lower == lower && this.idx == idx && this.noDeps == noDeps
      ensures selected == [] && byName == {} && failed == []
    {
      this.lower, this.idx, this.noDeps := lower, idx, noDeps;
      selected, byName, failed := [], {}, [];
    }

    /** depWants, which reports the edges it cannot parse. */
    method NextWants(c: Candidate) returns (wants: seq<Want>)
      modifies this`failed
      ensures wants == if noDeps then [] else DepWants(c.depends, byName)
      ensures failed == old(failed) + if noDeps then [] else DepFailures(c.name, c.depends)
    {
      wants := [];
      if noDeps {
        return;
      }
      for i := 0 to |c.depends|
        invariant wants == DepWants(c.depends[..i], byName)
        invariant failed == old(failed) + DepFailures(c.name, c.depends[..i])
      {
        var d := c.depends[i];
        assert c.depends[..i + 1][..i] == c.depends[..i];
        if d.Unparsable? {
          failed := failed + [Failure(c.name, d.text)];
        } else if d.Edge? && d.want.name !in byName {
          wants := wants + [d.want];
        }
      }
      assert c.depends[..|c.depends|] == c.depends;
    }

    /** resolve: breadth first over the demands, until none is left or the cap is reached. */
    method Resolve(specs: seq<Want>) returns (ghost left: seq<Want>)
      requires Named(idx) && selected == [] && byName == {} && failed == []
      modifies this
      ensures State(left, selected, byName, failed) == Run(lower, idx, noDeps, State(specs, [], {}, []))
      ensures |selected| <= 4000 && (left == [] || |selected| == 4000)
      ensures StateOk(Task(lower, idx, noDeps, specs), State(left, selected, byName, failed))
      ensures forall w | w in specs :: w in left || Settled(Task(lower, idx, noDeps, specs), State(left, selected, byName, failed), w)
    {
      hide Choice, Run, StateOk, Settled;
      var queue := specs;
      ghost var start := State(specs, [], {}, []);
      while |queue| > 0 && |selected| < MAX_RESOLVED
        invariant Run(lower, idx, noDeps, State(queue, selected, byName, failed)) == Run(lower, idx, noDeps, start)
        invariant |selected| <= MAX_RESOLVED
        decreases MAX_RESOLVED - |selected|, |queue|
      {
        ghost var s := State(queue, selected, byName, failed);
        var w := queue[0];
        queue := queue[1..];
        TurnIs(lower, idx, noDeps, s);
        if w.name in byName {
          continue;
        }
        var best := Pick(lower, CandidatesOf(idx, w.name), w);
        if best.None? {
          failed := failed + [Failure(w.name, w.desc)];
          continue;
        }
        byName := byName + {w.name};
        selected := selected + [best.value];
        var more := NextWants(best.value);
        queue := queue + more;
      }
      left := queue;
      RunEnds(lower, idx, noDeps, State(queue, selected, byName, failed));
      NothingYet(Task(lower, idx, noDeps, specs));
      RunSettles(Task(lower, idx, noDeps, specs), start);
    }
  }

  lemma RunEnds(lower: Data -> Data, idx: Index, noDeps: bool, s: State)
    requires s.queue == [] || |s.selected| >= MAX_RESOLVED
    ensures Run(lower, idx, noDeps, s) == s
  {
  }

  lemma NothingYet(r: Task)
    ensures StateOk(r, State(r.specs, [], {}, []))
  {
  }

  lemma TurnIs(lower: Data -> Data, idx: Index, noDeps: bool, s: State)
    requires s.queue != [] && |s.selected| < MAX_RESOLVED
    ensures Run(lower, idx, noDeps, s) == Run(lower, idx, noDeps, Turn(lower, idx, noDeps, s))
  {
    hide Choice, Turn;
  }
}
