/** The Debian version order (Debian Policy Manual section 5.6.12) and the newest package of each name. */
module DebianVersion {
  import opened Bytes
  import opened Lexical

  predicate IsLetter(c: u8) { 0x61 <= c <= 0x7a || 0x41 <= c <= 0x5a }

  /** debCharOrder: '~' sorts before the end of the string, letters before other characters. */
  function Weight(c: u8): int
  {
    if IsDigit(c) then 0
    else if IsLetter(c) then c
    else if c == 0x7e then -1
    else c + 256
  }

  /** debOrderAt. */
  function WeightAt(s: Data, i: nat): int
  {
    if i >= |s| then 0 else Weight(s[i])
  }

  // ---- the order, by a key ----

  /** The length of the leading digit run. */
  function Run(s: Data): (n: nat)
    ensures n <= |s| && (forall i | 0 <= i < n :: IsDigit(s[i])) && (n < |s| ==> !IsDigit(s[n]))
  {
    if s == [] || !IsDigit(s[0]) then 0 else 1 + Run(s[1..])
  }

  function Number(s: Data): nat { Value(s[..Run(s)]) }

  /** A version part as numbers to compare one by one: the weights of its characters, and for each
      digit run the weight of an end of text and the value of the run. */
  function Key(s: Data): seq<int>
    decreases |s|
  {
    if s == [] then []
    else if !IsDigit(s[0]) then [Weight(s[0])] + Key(s[1..])
    else [0, Number(s)] + Key(s[Run(s)..])
  }

  function Head(x: seq<int>): int { if x == [] then 0 else x[0] }

  function Tail(x: seq<int>): seq<int> { if x == [] then [] else x[1..] }

  /** Lexicographic comparison, the shorter sequence continued by zeros. */
  function Compare(x: seq<int>, y: seq<int>): (c: int)
    ensures -1 <= c <= 1
    decreases |x| + |y|
  {
    if x == [] && y == [] then 0
    else if Head(x) != Head(y) then Sign(Head(x) - Head(y))
    else Compare(Tail(x), Tail(y))
  }

  lemma {:induction false} CompareFlips(x: seq<int>, y: seq<int>)
    ensures Compare(y, x) == -Compare(x, y)
    decreases |x| + |y|
  {
    if x != [] || y != [] {
      CompareFlips(Tail(x), Tail(y));
    }
  }

  lemma {:induction false} CompareChains(x: seq<int>, y: seq<int>, z: seq<int>)
    requires Compare(x, y) <= 0 && Compare(y, z) <= 0
    ensures Compare(x, z) <= 0
    ensures Compare(x, z) == 0 ==> Compare(x, y) == 0 && Compare(y, z) == 0
    decreases |x| + |y| + |z|
  {
    if x != [] || y != [] || z != [] {
      if Head(x) == Head(y) == Head(z) {
        CompareTails(x, y);
        CompareTails(y, z);
        CompareTails(x, z);
        CompareChains(Tail(x), Tail(y), Tail(z));
      }
    }
  }

  lemma CompareTails(x: seq<int>, y: seq<int>)
    requires Head(x) == Head(y)
    ensures Compare(x, y) == Compare(Tail(x), Tail(y))
  {
  }

  /** Trailing zeros are all that Compare does not see. */
  function Stripped(x: seq<int>): seq<int>
  {
    if x != [] && x[|x| - 1] == 0 then Stripped(x[..|x| - 1]) else x
  }

  lemma {:induction false} StrippedHead(x: seq<int>)
    ensures Stripped(x) == if Stripped(Tail(x)) == [] && Head(x) == 0 then [] else [Head(x)] + Stripped(Tail(x))
    decreases |x|
  {
    if x != [] && x[|x| - 1] == 0 {
      var init := x[..|x| - 1];
      StrippedHead(init);
      if |x| > 1 {
        assert Tail(x)[..|x| - 2] == Tail(init);
      }
    } else if x != [] {
      assert x == [Head(x)] + Tail(x);
    }
  }

  /** Two keys compare equal exactly when they are the same up to trailing zeros: the stripped key is
      a canonical form, and on canonical forms the order is a total order. */
  lemma {:induction false} EqualWhenSame(x: seq<int>, y: seq<int>)
    ensures Compare(x, y) == 0 <==> Stripped(x) == Stripped(y)
    decreases |x| + |y|
  {
    StrippedHead(x);
    StrippedHead(y);
    if x != [] || y != [] {
      EqualWhenSame(Tail(x), Tail(y));
      if Stripped(x) == Stripped(y) && Head(x) == Head(y) {
        assert Stripped(x) != [] ==> Stripped(x)[1..] == Stripped(Tail(x)) && Stripped(y)[1..] == Stripped(Tail(y));
      }
    }
  }

  // ---- what the policy says of the order ----

  /** Text after a common beginning has its own key. */
  lemma {:induction false} KeyAppend(s: Data, t: Data)
    requires t == [] || !IsDigit(t[0])
    ensures Key(s + t) == Key(s) + Key(t)
    decreases |s|
  {
    if s == [] {
      assert s + t == t;
    } else if !IsDigit(s[0]) {
      assert (s + t)[1..] == s[1..] + t;
      KeyAppend(s[1..], t);
    } else {
      var n := Run(s);
      RunAppend(s, t);
      assert (s + t)[..n] == s[..n] && (s + t)[n..] == s[n..] + t;
      KeyAppend(s[n..], t);
    }
  }

  lemma {:induction false} RunAppend(s: Data, t: Data)
    requires t == [] || !IsDigit(t[0])
    ensures Run(s + t) == Run(s)
  {
    if s == [] {
      assert s + t == t;
    } else if IsDigit(s[0]) {
      assert (s + t)[1..] == s[1..] + t;
      RunAppend(s[1..], t);
    }
  }

  lemma {:induction false} CompareAppend(x: seq<int>, y: seq<int>, z: seq<int>)
    ensures Compare(x + y, x + z) == Compare(y, z)
    decreases |x|
  {
    if x == [] {
      assert x + y == y && x + z == z;
    } else {
      assert (x + y)[1..] == x[1..] + y && (x + z)[1..] == x[1..] + z;
      CompareAppend(x[1..], y, z);
    }
  }

  /** After a common beginning the first characters decide: a tilde comes before anything, even the end
      of the part, the end before letters, and letters before all other characters. */
  lemma FirstCharactersDecide(s: Data, t: Data, u: Data)
    requires (t == [] || !IsDigit(t[0])) && (u == [] || !IsDigit(u[0])) && WeightAt(t, 0) != WeightAt(u, 0)
    ensures Compare(Key(s + t), Key(s + u)) == Sign(WeightAt(t, 0) - WeightAt(u, 0))
  {
    KeyAppend(s, t);
    KeyAppend(s, u);
    CompareAppend(Key(s), Key(t), Key(u));
    DifferAt(t, u);
  }

  /** After a common beginning that is text, numbers decide by their value, leading zeros and all. */
  lemma NumbersDecideAfter(s: Data, t: Data, u: Data)
    requires s == [] || !IsDigit(s[|s| - 1])
    requires (t == [] || IsDigit(t[0])) && (u == [] || IsDigit(u[0])) && Number(t) != Number(u)
    ensures Compare(Key(s + t), Key(s + u)) == Sign(Number(t) - Number(u))
  {
    KeyAfterText(s, t);
    KeyAfterText(s, u);
    CompareAppend(Key(s), Key(t), Key(u));
    NumbersDecide(t, u);
  }

  lemma {:induction false} KeyAfterText(s: Data, t: Data)
    requires s == [] || !IsDigit(s[|s| - 1])
    ensures Key(s + t) == Key(s) + Key(t)
    decreases |s|
  {
    hide Number, Weight, Run;
    if s == [] {
      assert s + t == t;
    } else if !IsDigit(s[0]) {
      assert (s + t)[1..] == s[1..] + t;
      KeyAfterText(s[1..], t);
    } else {
      var n := Run(s);
      assert n < |s|;
      RunInside(s, t);
      assert (s + t)[..n] == s[..n] && (s + t)[n..] == s[n..] + t;
      assert Number(s + t) == Number(s) by { hide *; NumberOfRun(s, t); }
      assert n > 0 by { hide *; RunStarts(s); }
      KeyAfterText(s[n..], t);
    }
  }

  lemma NumberOfRun(s: Data, t: Data)
    requires Run(s + t) == Run(s)
    ensures Number(s + t) == Number(s)
  {
    hide Value, Run;
    assert (s + t)[..Run(s)] == s[..Run(s)];
  }

  lemma RunStarts(s: Data)
    requires s != [] && IsDigit(s[0])
    ensures Run(s) > 0
  {
  }

  lemma {:induction false} RunInside(s: Data, t: Data)
    requires Run(s) < |s|
    ensures Run(s + t) == Run(s)
  {
    if IsDigit(s[0]) {
      assert (s + t)[1..] == s[1..] + t;
      RunInside(s[1..], t);
    }
  }

  // ---- the comparison, in place ----

  /** Both parts start with a character other than a digit: equal ones drop out. */
  lemma SkipEqual(a: Data, b: Data)
    requires a != [] && b != [] && a[0] == b[0] && !IsDigit(a[0])
    ensures Compare(Key(a), Key(b)) == Compare(Key(a[1..]), Key(b[1..]))
  {
  }

  /** The first difference of weights decides. */
  lemma DifferAt(a: Data, b: Data)
    requires WeightAt(a, 0) != WeightAt(b, 0)
    ensures Compare(Key(a), Key(b)) == Sign(WeightAt(a, 0) - WeightAt(b, 0))
  {
    HeadIsWeight(a);
    HeadIsWeight(b);
  }

  lemma HeadIsWeight(s: Data)
    ensures Head(Key(s)) == WeightAt(s, 0)
  {
  }

  /** Ends of text or digit runs: the numbers decide, or drop out when they are equal. */
  lemma NumbersDecide(a: Data, b: Data)
    requires (a == [] || IsDigit(a[0])) && (b == [] || IsDigit(b[0]))
    ensures Compare(Key(a), Key(b)) ==
      if Number(a) != Number(b) then Sign(Number(a) - Number(b)) else Compare(Key(a[Run(a)..]), Key(b[Run(b)..]))
  {
    NumberFirst(a);
    NumberFirst(b);
    CompareTails(Key(a), Key(b));
    if Number(a) == Number(b) {
      CompareTails(Tail(Key(a)), Tail(Key(b)));
    }
  }

  lemma NumberFirst(s: Data)
    requires s == [] || IsDigit(s[0])
    ensures Head(Key(s)) == 0 && Head(Tail(Key(s))) == Number(s) && Tail(Tail(Key(s))) == Key(s[Run(s)..])
  {
    if s == [] {
      assert s[..Run(s)] == [];
      assert s[Run(s)..] == [];
    } else {
      assert Key(s) == [0, Number(s)] + Key(s[Run(s)..]);
      assert Tail(Key(s)) == [Number(s)] + Key(s[Run(s)..]);
      assert Tail(Tail(Key(s))) == Key(s[Run(s)..]);
    }
  }

  /** debCmpNonDigits. */
  method CompareNonDigits(a: Data, b: Data, ai: nat, bi: nat) returns (c: int, ai': nat, bi': nat)
    requires ai <= |a| && bi <= |b|
    ensures ai <= ai' <= |a| && bi <= bi' <= |b|
    ensures c != 0 ==> c == Compare(Key(a[ai..]), Key(b[bi..]))
    ensures c == 0 ==> Compare(Key(a[ai..]), Key(b[bi..])) == Compare(Key(a[ai'..]), Key(b[bi'..]))
    ensures c == 0 ==> (ai' < |a| ==> IsDigit(a[ai'])) && (bi' < |b| ==> IsDigit(b[bi']))
    ensures c == 0 && ((ai < |a| && !IsDigit(a[ai])) || (bi < |b| && !IsDigit(b[bi]))) ==> ai' > ai && bi' > bi
  {
    hide Key, Compare, Weight;
    ai', bi' := ai, bi;
    while (ai' < |a| && !IsDigit(a[ai'])) || (bi' < |b| && !IsDigit(b[bi']))
      invariant ai <= ai' <= |a| && bi <= bi' <= |b| && ai' - ai == bi' - bi
      invariant Compare(Key(a[ai..]), Key(b[bi..])) == Compare(Key(a[ai'..]), Key(b[bi'..]))
      decreases |a| - ai' + |b| - bi'
    {
      var ac, bc := WeightAt(a, ai'), WeightAt(b, bi');
      assert ac == WeightAt(a[ai'..], 0) && bc == WeightAt(b[bi'..], 0);
      if ac != bc {
        DifferAt(a[ai'..], b[bi'..]);
        return Sign(ac - bc), ai', bi';
      }
      SameCharacter(a, b, ai', bi');
      SkipEqual(a[ai'..], b[bi'..]);
      ai', bi' := ai' + 1, bi' + 1;
    }
    c := 0;
  }

  /** Equal weights, one of them of a character other than a digit, are of the same character. */
  lemma SameCharacter(a: Data, b: Data, i: nat, k: nat)
    requires i <= |a| && k <= |b| && WeightAt(a, i) == WeightAt(b, k)
    requires (i < |a| && !IsDigit(a[i])) || (k < |b| && !IsDigit(b[k]))
    ensures i < |a| && k < |b| && a[i] == b[k] && !IsDigit(a[i])
    ensures a[i..][0] == a[i] && b[k..][0] == b[k] && a[i..][1..] == a[i + 1..] && b[k..][1..] == b[k + 1..]
  {
  }

  /** The digits of a run, from a position inside it. */
  lemma RunOf(s: Data, i: nat, k: nat)
    requires i <= k <= |s| && (forall j | i <= j < k :: IsDigit(s[j])) && (k < |s| ==> !IsDigit(s[k]))
    ensures Run(s[i..]) == k - i && s[i..][..k - i] == s[i..k] && s[i..][k - i..] == s[k..]
  {
    var t := s[i..];
    var n := Run(t);
    assert forall j | 0 <= j < |t| :: t[j] == s[i + j];
    assert n < |t| ==> !IsDigit(s[i + n]);
  }

  /** The end of the digit run that starts at a position. */
  function RunEnd(s: Data, i: nat): (k: nat)
    requires i <= |s|
    ensures i <= k <= |s| && (forall j | i <= j < k :: IsDigit(s[j])) && (k < |s| ==> !IsDigit(s[k]))
    ensures Number(s[i..]) == Value(s[i..k]) && Run(s[i..]) == k - i && s[i..][k - i..] == s[k..]
  {
    var k := i + Run(s[i..]);
    assert forall j | i <= j < k :: s[j] == s[i..][j - i];
    RunOf(s, i, k);
    k
  }

  /** debCmpDigits: leading zeros skipped, then the longer run wins, else the first difference. */
  method CompareDigits(a: Data, b: Data, ai: nat, bi: nat) returns (c: int, ai': nat, bi': nat)
    requires ai <= |a| && bi <= |b|
    ensures ai <= ai' <= |a| && bi <= bi' <= |b|
    ensures c == Sign(Number(a[ai..]) - Number(b[bi..]))
    ensures c == 0 ==> ai' == RunEnd(a, ai) && bi' == RunEnd(b, bi)
  {
    hide Value, Number;
    ghost var ae, be := RunEnd(a, ai), RunEnd(b, bi);
    ai' := SkipZeros(a, ai);
    bi' := SkipZeros(b, bi);
    ghost var az, bz := ai', bi';
    var firstDiff := 0;
    EmptyValues(a, b, az, bz);
    while ai' < |a| && IsDigit(a[ai']) && bi' < |b| && IsDigit(b[bi'])
      invariant az <= ai' <= ae && bz <= bi' <= be && ai' - az == bi' - bz
      invariant Sign(firstDiff) == Sign(Value(a[az..ai']) - Value(b[bz..bi']))
    {
      NextDigit(a, az, ai');
      NextDigit(b, bz, bi');
      if firstDiff == 0 {
        firstDiff := (a[ai'] as int) - (b[bi'] as int);
      }
      ai', bi' := ai' + 1, bi' + 1;
    }
    if ai' < |a| && IsDigit(a[ai']) {
      LongerIsGreater(a[az..ae], b[bz..be]);
      return 1, ai', bi';
    }
    if bi' < |b| && IsDigit(b[bi']) {
      LongerIsGreater(b[bz..be], a[az..ae]);
      return -1, ai', bi';
    }
    c := Sign(firstDiff);
  }

  lemma EmptyValues(a: Data, b: Data, i: nat, k: nat)
    requires i <= |a| && k <= |b|
    ensures Value(a[i..i]) == 0 && Value(b[k..k]) == 0
  {
  }

  lemma NextDigit(s: Data, i: nat, k: nat)
    requires i <= k < |s| && forall j | i <= j <= k :: IsDigit(s[j])
    ensures Value(s[i..k + 1]) == Value(s[i..k]) * 10 + Digit(s[k])
  {
    assert s[i..k + 1][..k - i] == s[i..k];
  }

  method SkipZeros(s: Data, i: nat) returns (k: nat)
    requires i <= |s|
    ensures i <= k <= RunEnd(s, i) && Value(s[i..RunEnd(s, i)]) == Value(s[k..RunEnd(s, i)])
    ensures k < |s| ==> s[k] != 0x30
  {
    hide Value, Number, Run, RunEnd;
    ghost var e := RunEnd(s, i);
    k := i;
    while k < |s| && s[k] == 0x30
      invariant i <= k <= e && forall j | i <= j < k :: s[j] == 0x30
    {
      k := k + 1;
    }
    ZerosFirst(s[i..e], k - i);
    assert s[i..e][k - i..] == s[k..e];
  }

  /** debVerRevCmp: the two-index loop reads inside both strings, ends, and compares the keys. */
  method CompareParts(a: Data, b: Data) returns (c: int)
    ensures c == Compare(Key(a), Key(b))
  {
    hide Key, Compare;
    var ai, bi := 0, 0;
    assert a[0..] == a && b[0..] == b;
    while ai < |a| || bi < |b|
      invariant ai <= |a| && bi <= |b| && Compare(Key(a), Key(b)) == Compare(Key(a[ai..]), Key(b[bi..]))
      decreases |a| - ai + |b| - bi
    {
      c, ai, bi := CompareRound(a, b, ai, bi);
      if c != 0 {
        return;
      }
    }
    NothingLeft(a, b);
    c := 0;
  }

  /** One turn of the loop: a run of text, then a run of digits. */
  method CompareRound(a: Data, b: Data, ai: nat, bi: nat) returns (c: int, ai': nat, bi': nat)
    requires ai <= |a| && bi <= |b| && (ai < |a| || bi < |b|)
    ensures ai <= ai' <= |a| && bi <= bi' <= |b|
    ensures c != 0 ==> c == Compare(Key(a[ai..]), Key(b[bi..]))
    ensures c == 0 ==> Compare(Key(a[ai..]), Key(b[bi..])) == Compare(Key(a[ai'..]), Key(b[bi'..]))
    ensures c == 0 ==> ai' > ai || bi' > bi
  {
    hide Key, Compare, Number, Run, RunEnd;
    c, ai', bi' := CompareNonDigits(a, b, ai, bi);
    if c != 0 {
      return;
    }
    NumbersAt(a, b, ai', bi');
    c, ai', bi' := CompareDigits(a, b, ai', bi');
  }

  lemma NumbersAt(a: Data, b: Data, i: nat, k: nat)
    requires i <= |a| && k <= |b| && (i < |a| ==> IsDigit(a[i])) && (k < |b| ==> IsDigit(b[k]))
    ensures var x, y := Number(a[i..]), Number(b[k..]);
      Compare(Key(a[i..]), Key(b[k..])) ==
        if x != y then Sign(x - y) else Compare(Key(a[RunEnd(a, i)..]), Key(b[RunEnd(b, k)..]))
    ensures i < |a| ==> RunEnd(a, i) > i
    ensures k < |b| ==> RunEnd(b, k) > k
  {
    hide Key, Compare, Number, Run;
    var ae, be := RunEnd(a, i), RunEnd(b, k);
    NumbersDecide(a[i..], b[k..]);
  }

  lemma NothingLeft(a: Data, b: Data)
    ensures Compare(Key(a[|a|..]), Key(b[|b|..])) == 0
  {
  }

  // ---- whole versions ----

  /** strings.IndexByte. */
  function IndexOf(s: Data, c: u8): (r: Option<nat>)
    ensures r.Some? ==> r.value < |s| && s[r.value] == c && c !in s[..r.value]
    ensures r.None? ==> c !in s
  {
    if s == [] then None
    else if s[0] == c then Some(0)
    else
      var r := IndexOf(s[1..], c);
      if r.Some? then
        assert s[..r.value + 1] == [s[0]] + s[1..][..r.value];
        Some(r.value + 1)
      else None
  }

  /** strings.LastIndexByte. */
  function LastIndexOf(s: Data, c: u8): (r: Option<nat>)
    ensures r.Some? ==> r.value < |s| && s[r.value] == c && c !in s[r.value + 1..]
    ensures r.None? ==> c !in s
  {
    if s == [] then None
    else if s[|s| - 1] == c then Some(|s| - 1)
    else
      var r := LastIndexOf(s[..|s| - 1], c);
      assert s == s[..|s| - 1] + [s[|s| - 1]];
      if r.Some? then
        assert s[r.value + 1..] == s[..|s| - 1][r.value + 1..] + [s[|s| - 1]];
        r
      else None
  }

  predicate InRange(n: int) { -0x8000_0000_0000_0000 <= n < 0x8000_0000_0000_0000 }

  /** strconv.Atoi: an optional sign and digits, within int64. */
  function Atoi(s: Data): (r: Option<int>)
    ensures r.Some? ==> InRange(r.value)
  {
    var signed := s != [] && (s[0] == 0x2b || s[0] == 0x2d);
    var digits := if signed then s[1..] else s;
    if digits == [] || Run(digits) != |digits| then None
    else
      assert digits[..|digits|] == digits;
      var n: int := if signed && s[0] == 0x2d then 0 - (Value(digits) as int) else Value(digits) as int;
      if InRange(n) then Some(n) else None
  }

  datatype Version = Version(epoch: int, upstream: Data, revision: Data)

  /** splitDebVersion of a version without surrounding space: an epoch that does not parse stays in
      the upstream part. */
  function Split(v: Data): (r: Version)
    ensures InRange(r.epoch)
  {
    var colon := IndexOf(v, 0x3a);
    var epoch := if colon.Some? then Atoi(v[..colon.value]) else None;
    var rest := if epoch.Some? then v[colon.value + 1..] else v;
    var dash := LastIndexOf(rest, 0x2d);
    Version(if epoch.Some? then epoch.value else 0,
            if dash.Some? then rest[..dash.value] else rest,
            if dash.Some? then rest[dash.value + 1..] else [])
  }

  /** The order the policy prescribes: epoch, then upstream part, then revision. */
  function Order(v: Version, w: Version): (c: int)
    ensures -1 <= c <= 1
  {
    if v.epoch != w.epoch then Sign(v.epoch - w.epoch)
    else
      var c := Compare(Key(v.upstream), Key(w.upstream));
      if c != 0 then c else Compare(Key(v.revision), Key(w.revision))
  }

  /** int subtraction as the machine does it. */
  function Wrapped(n: int): int
  {
    (n + 0x8000_0000_0000_0000) % 0x1_0000_0000_0000_0000 - 0x8000_0000_0000_0000
  }

  /** The prescribed order while the difference of the epochs does not wrap around, which it never does
      for the unsigned epochs the policy allows, and the reverse otherwise. */
  function CodeOrder(v: Version, w: Version): (c: int)
  {
    if InRange(v.epoch - w.epoch) then Order(v, w) else -Order(v, w)
  }

  /** debVersionCompare. */
  method CompareVersions(trim: Data -> Data, a: Data, b: Data) returns (c: int)
    ensures c == CodeOrder(Split(trim(a)), Split(trim(b)))
  {
    var v, w := Split(trim(a)), Split(trim(b));
    if v.epoch != w.epoch {
      WrapFlips(v.epoch, w.epoch);
      return Sign(Wrapped(v.epoch - w.epoch));
    }
    c := CompareParts(v.upstream, w.upstream);
    if c != 0 {
      return;
    }
    c := CompareParts(v.revision, w.revision);
  }

  lemma WrapFlips(e: int, f: int)
    requires InRange(e) && InRange(f) && e != f
    ensures Sign(Wrapped(e - f)) == if InRange(e - f) then Sign(e - f) else -Sign(e - f)
  {
  }

  /** "5000000000000000000:1" and "-5000000000000000000:1": the code puts the later one first. */
  lemma EpochsWrap()
    ensures var a, b := FarDigits() + [0x3a, 0x31], [0x2d] + FarDigits() + [0x3a, 0x31];
      var v, w := Split(a), Split(b);
      && v == Version(5_000_000_000_000_000_000, [0x31], []) && w == Version(-5_000_000_000_000_000_000, [0x31], [])
      && Order(v, w) == 1 && CodeOrder(v, w) == -1
  {
    hide FarDigits, Atoi, Split;
    FarEpochs();
    SplitEpoch(FarDigits(), 5_000_000_000_000_000_000);
    SplitEpoch([0x2d] + FarDigits(), -5_000_000_000_000_000_000);
  }

  function FarDigits(): Data { [0x35] + ZeroDigits(18) }

  function ZeroDigits(n: nat): Data { if n == 0 then [] else ZeroDigits(n - 1) + [0x30] }

  function Tenfold(v: nat, n: nat): nat { if n == 0 then v else Tenfold(v, n - 1) * 10 }

  lemma {:induction false} ValueOfZeros(s: Data, n: nat)
    requires forall i | 0 <= i < |s| :: IsDigit(s[i])
    ensures var t := s + ZeroDigits(n);
      |t| == |s| + n && (forall i | 0 <= i < |t| :: IsDigit(t[i])) && Value(t) == Tenfold(Value(s), n)
  {
    if n == 0 {
      assert s + ZeroDigits(0) == s;
    } else {
      ValueOfZeros(s, n - 1);
      var t, u := s + ZeroDigits(n - 1), s + ZeroDigits(n);
      assert u == t + [0x30];
      ZeroMore(t);
    }
  }

  lemma ZeroMore(t: Data)
    requires forall i | 0 <= i < |t| :: IsDigit(t[i])
    ensures var u := t + [0x30];
      (forall i | 0 <= i < |u| :: IsDigit(u[i])) && Value(u) == Value(t) * 10
  {
    assert (t + [0x30])[..|t|] == t;
  }

  lemma FarValue()
    ensures var t := FarDigits();
      |t| == 19 && t[0] == 0x35 && (forall i | 0 <= i < |t| :: IsDigit(t[i])) && Value(t) == 5_000_000_000_000_000_000
  {
    var s: Data := [0x35];
    assert s[..0] == [] && Value(s) == 5;
    ValueOfZeros(s, 18);
    hide Value;
    assert Tenfold(5, 6) == 5_000_000 && Tenfold(5, 12) == 5_000_000_000_000 && Tenfold(5, 18) == 5_000_000_000_000_000_000;
  }

  lemma FarEpochs()
    ensures 0x3a !in FarDigits() && Atoi(FarDigits()) == Some(5_000_000_000_000_000_000)
    ensures Atoi([0x2d] + FarDigits()) == Some(-5_000_000_000_000_000_000)
  {
    hide FarDigits, Value, Run;
    FarValue();
    var t := FarDigits();
    AllDigitsRun(t);
    assert ([0x2d] + t)[1..] == t;
  }

  /** An epoch before a version of one digit. */
  lemma SplitEpoch(e: Data, n: int)
    requires Atoi(e) == Some(n) && 0x3a !in e
    ensures Split(e + [0x3a, 0x31]) == Version(n, [0x31], [])
  {
    hide Atoi;
    var v := e + [0x3a, 0x31];
    FirstAt(v, 0x3a, |e|);
    assert v[..|e|] == e && v[|e| + 1..] == [0x31];
    assert LastIndexOf([0x31], 0x2d) == None;
  }

  lemma FirstAt(s: Data, c: u8, i: nat)
    requires i < |s| && s[i] == c && c !in s[..i]
    ensures IndexOf(s, c) == Some(i)
  {
    hide IndexOf;
    assert s[i] in s;
    var r := IndexOf(s, c).value;
    InPrefix(s, r, i);
    InPrefix(s, i, r);
  }

  lemma InPrefix(s: Data, i: nat, n: nat)
    ensures i < n <= |s| ==> s[i] in s[..n]
  {
    if i < n <= |s| {
      assert s[..n][i] == s[i];
    }
  }

  lemma {:induction false} AllDigitsRun(s: Data)
    requires forall i | 0 <= i < |s| :: IsDigit(s[i])
    ensures Run(s) == |s|
  {
    if s != [] {
      AllDigitsRun(s[1..]);
    }
  }

  lemma OrderFlips(v: Version, w: Version)
    ensures Order(w, v) == -Order(v, w)
  {
    CompareFlips(Key(v.upstream), Key(w.upstream));
    CompareFlips(Key(v.revision), Key(w.revision));
  }

  /** The order is a total preorder: with OrderFlips, any two versions are comparable and comparison
      chains. Versions compare equal exactly when their epochs and canonical keys are equal. */
  lemma OrderChains(v: Version, w: Version, x: Version)
    requires Order(v, w) <= 0 && Order(w, x) <= 0
    ensures Order(v, x) <= 0
    ensures Order(v, x) == 0 ==> Order(v, w) == 0 && Order(w, x) == 0
  {
    if v.epoch == w.epoch == x.epoch {
      CompareChains(Key(v.upstream), Key(w.upstream), Key(x.upstream));
      if Compare(Key(v.upstream), Key(x.upstream)) == 0 {
        CompareChains(Key(v.revision), Key(w.revision), Key(x.revision));
      }
    }
  }

  lemma OrderEqual(v: Version, w: Version)
    ensures Order(v, w) == 0 <==>
      && v.epoch == w.epoch && Stripped(Key(v.upstream)) == Stripped(Key(w.upstream))
      && Stripped(Key(v.revision)) == Stripped(Key(w.revision))
  {
    EqualWhenSame(Key(v.upstream), Key(w.upstream));
    EqualWhenSame(Key(v.revision), Key(w.revision));
  }

  // ---- the newest package of each name and architecture ----

  datatype Package = Package(name: Data, architecture: Data, version: Data, stanza: Data)

  /** The map key of a package: name and architecture, separated by a zero byte. */
  function KeyOf(p: Package): Data { p.name + [0] + p.architecture }

  /** Two packages share a key exactly when name and architecture agree, as neither contains a zero byte. */
  lemma KeysIdentify(p: Package, q: Package)
    requires 0 !in p.name && 0 !in q.name
    ensures KeyOf(p) == KeyOf(q) <==> p.name == q.name && p.architecture == q.architecture
  {
    NameEnds(p);
    NameEnds(q);
    if KeyOf(p) == KeyOf(q) {
      var n := |p.name|;
      assert n == |q.name|;
      assert p.name == KeyOf(p)[..n] && q.name == KeyOf(p)[..n];
      assert p.architecture == KeyOf(p)[n + 1..] && q.architecture == KeyOf(p)[n + 1..];
    }
  }

  lemma NameEnds(p: Package)
    requires 0 !in p.name
    ensures KeyOf(p)[|p.name|] == 0 && forall i | 0 <= i < |p.name| :: KeyOf(p)[i] != 0
  {
    forall i | 0 <= i < |p.name| ensures KeyOf(p)[i] != 0 {
      assert KeyOf(p)[i] == p.name[i] && p.name[i] in p.name;
    }
  }

  /** No earlier package has the key of the i-th. */
  ghost predicate IsFirst(pkgs: seq<Package>, i: nat)
    requires i < |pkgs|
  {
    forall j | 0 <= j < i :: KeyOf(pkgs[j]) != KeyOf(pkgs[i])
  }

  function VersionOf(trim: Data -> Data, p: Package): Version { Split(trim(p.version)) }

  /** Among the first n packages, the m-th is the earliest of the newest with its key. */
  ghost predicate IsNewest(trim: Data -> Data, pkgs: seq<Package>, n: nat, m: nat)
    requires m < n <= |pkgs|
  {
    forall i | 0 <= i < n && KeyOf(pkgs[i]) == KeyOf(pkgs[m]) ::
      && Order(VersionOf(trim, pkgs[i]), VersionOf(trim, pkgs[m])) <= 0
      && (i < m ==> Order(VersionOf(trim, pkgs[i]), VersionOf(trim, pkgs[m])) < 0)
  }

  /** No two epochs are too far apart to subtract. */
  ghost predicate EpochsFit(trim: Data -> Data, pkgs: seq<Package>)
  {
    forall i, j | 0 <= i < |pkgs| && 0 <= j < |pkgs| ::
      InRange(VersionOf(trim, pkgs[i]).epoch - VersionOf(trim, pkgs[j]).epoch)
  }

  /** What filterNewestApt has kept of the first n packages: one entry a key, where the key first
      occurred, and of that key the earliest newest. */
  ghost predicate Filtered(trim: Data -> Data, pkgs: seq<Package>, n: nat, out: seq<Package>, firsts: seq<nat>, picks: seq<nat>)
    requires n <= |pkgs|
  {
    && |out| == |firsts| == |picks|
    && (forall k, l | 0 <= k < l < |firsts| :: firsts[k] < firsts[l])
    && (forall k | 0 <= k < |firsts| :: firsts[k] < n && IsFirst(pkgs, firsts[k]))
    && (forall i | 0 <= i < n && IsFirst(pkgs, i) :: i in firsts)
    && (forall k | 0 <= k < |picks| :: picks[k] < n && out[k] == pkgs[picks[k]] && KeyOf(out[k]) == KeyOf(pkgs[firsts[k]]))
    && (EpochsFit(trim, pkgs) ==> forall k | 0 <= k < |picks| :: IsNewest(trim, pkgs, n, picks[k]))
  }

  /** The package kept of a key: the first, and each later one that compares greater. */
  function Kept(trim: Data -> Data, pkgs: seq<Package>, key: Data): (k: Option<Package>)
    ensures k.Some? ==> k.value in pkgs && KeyOf(k.value) == key
  {
    if pkgs == [] then None
    else
      var before, last := Kept(trim, pkgs[..|pkgs| - 1], key), pkgs[|pkgs| - 1];
      if KeyOf(last) != key then before
      else if before.None? || CodeOrder(VersionOf(trim, last), VersionOf(trim, before.value)) > 0 then Some(last)
      else before
  }

  /** The newest of each name and architecture, in the order of their first occurrence. */
  ghost predicate NewestOnly(trim: Data -> Data, pkgs: seq<Package>, out: seq<Package>)
  {
    exists firsts, picks :: Filtered(trim, pkgs, |pkgs|, out, firsts, picks)
  }

  /** filterNewestApt. */
  method FilterNewest(trim: Data -> Data, pkgs: seq<Package>) returns (out: seq<Package>)
    ensures NewestOnly(trim, pkgs, out)
    ensures forall k | 0 <= k < |out| :: Some(out[k]) == Kept(trim, pkgs, KeyOf(out[k]))
  {
    hide Order, CodeOrder, KeyOf, VersionOf, Filtered, Compared, Kept;
    var at: map<Data, nat> := map[];
    ghost var firsts: seq<nat>, picks: seq<nat> := [], [];
    out := [];
    NothingFiltered(trim, pkgs);
    NoneKept(trim);
    assert pkgs[..0] == [];
    for n := 0 to |pkgs|
      invariant Filtered(trim, pkgs, n, out, firsts, picks) && |picks| == |out|
      invariant forall k | 0 <= k < |out| :: KeyOf(out[k]) in at && at[KeyOf(out[k])] == k
      invariant forall key | key in at :: at[key] < |out| && KeyOf(out[at[key]]) == key
      invariant forall k | 0 <= k < |out| :: Some(out[k]) == Kept(trim, pkgs[..n], KeyOf(out[k]))
      invariant forall key | key !in at :: Kept(trim, pkgs[..n], key) == None
    {
      var p := pkgs[n];
      KeptNext(trim, pkgs, n);
      var key := KeyOf(p);
      if key in at {
        var k := at[key];
        var c := ComparePackages(trim, p, out[k]);
        ComparedIs(trim, p, out[k], c);
        if c > 0 {
          Replaced(trim, pkgs, n, out, firsts, picks, k, c);
          out, picks := out[k := p], picks[k := n];
        } else {
          NotReplaced(trim, pkgs, n, out, firsts, picks, k, c);
        }
      } else {
        Appended(trim, pkgs, n, out, firsts, picks);
        at := at[key := |out|];
        out, firsts, picks := out + [p], firsts + [n], picks + [n];
      }
    }
    assert pkgs[..|pkgs|] == pkgs;
  }

  lemma NoneKept(trim: Data -> Data)
    ensures forall key :: Kept(trim, [], key) == None
  {
  }

  lemma KeptNext(trim: Data -> Data, pkgs: seq<Package>, n: nat)
    requires n < |pkgs|
    ensures forall key | key != KeyOf(pkgs[n]) :: Kept(trim, pkgs[..n + 1], key) == Kept(trim, pkgs[..n], key)
    ensures var before := Kept(trim, pkgs[..n], KeyOf(pkgs[n]));
      Kept(trim, pkgs[..n + 1], KeyOf(pkgs[n])) ==
        if before.None? || CodeOrder(VersionOf(trim, pkgs[n]), VersionOf(trim, before.value)) > 0 then Some(pkgs[n]) else before
  {
    hide CodeOrder, VersionOf, KeyOf;
    assert pkgs[..n + 1][..n] == pkgs[..n];
  }

  lemma NothingFiltered(trim: Data -> Data, pkgs: seq<Package>)
    ensures Filtered(trim, pkgs, 0, [], [], [])
  {
  }

  /** What the comparison says about two packages. */
  ghost predicate Compared(trim: Data -> Data, p: Package, q: Package, c: int)
  {
    && c == CodeOrder(VersionOf(trim, p), VersionOf(trim, q))
    && (InRange(VersionOf(trim, p).epoch - VersionOf(trim, q).epoch) ==> c == Order(VersionOf(trim, p), VersionOf(trim, q)))
  }

  method ComparePackages(trim: Data -> Data, p: Package, q: Package) returns (c: int)
    ensures Compared(trim, p, q, c)
  {
    c := CompareVersions(trim, p.version, q.version);
  }

  lemma Replaced(trim: Data -> Data, pkgs: seq<Package>, n: nat, out: seq<Package>, firsts: seq<nat>, picks: seq<nat>, k: nat, c: int)
    requires n < |pkgs| && Filtered(trim, pkgs, n, out, firsts, picks) && k < |out| && KeyOf(out[k]) == KeyOf(pkgs[n]) && Compared(trim, pkgs[n], out[k], c) && c > 0
    ensures Filtered(trim, pkgs, n + 1, out[k := pkgs[n]], firsts, picks[k := n])
  {
    hide Order, KeyOf, VersionOf;
    NotFirst(pkgs, n, firsts[k]);
    if EpochsFit(trim, pkgs) {
      var now := picks[k := n];
      forall l | 0 <= l < |picks| ensures IsNewest(trim, pkgs, n + 1, now[l]) {
        if l == k {
          NewestReplaced(trim, pkgs, n, picks[k]);
        } else {
          OtherKey(pkgs, firsts, k, l);
        }
      }
    }
  }

  lemma NotReplaced(trim: Data -> Data, pkgs: seq<Package>, n: nat, out: seq<Package>, firsts: seq<nat>, picks: seq<nat>, k: nat, c: int)
    requires n < |pkgs| && Filtered(trim, pkgs, n, out, firsts, picks) && k < |out| && KeyOf(out[k]) == KeyOf(pkgs[n]) && Compared(trim, pkgs[n], out[k], c) && c <= 0
    ensures Filtered(trim, pkgs, n + 1, out, firsts, picks)
  {
    hide Order, KeyOf, VersionOf;
    NotFirst(pkgs, n, firsts[k]);
    if EpochsFit(trim, pkgs) {
      forall l | 0 <= l < |picks| ensures IsNewest(trim, pkgs, n + 1, picks[l]) {
        if l != k {
          OtherKey(pkgs, firsts, k, l);
        }
      }
    }
  }

  lemma Appended(trim: Data -> Data, pkgs: seq<Package>, n: nat, out: seq<Package>, firsts: seq<nat>, picks: seq<nat>)
    requires n < |pkgs| && Filtered(trim, pkgs, n, out, firsts, picks)
    requires forall k | 0 <= k < |out| :: KeyOf(out[k]) != KeyOf(pkgs[n])
    ensures Filtered(trim, pkgs, n + 1, out + [pkgs[n]], firsts + [n], picks + [n])
  {
    hide Order, KeyOf, VersionOf;
    NewKey(pkgs, n, firsts);
    OrderSelf(VersionOf(trim, pkgs[n]));
  }

  lemma NotFirst(pkgs: seq<Package>, n: nat, first: nat)
    requires first < n < |pkgs| && KeyOf(pkgs[first]) == KeyOf(pkgs[n])
    ensures !IsFirst(pkgs, n)
  {
  }

  lemma OtherKey(pkgs: seq<Package>, firsts: seq<nat>, k: nat, l: nat)
    requires k < |firsts| && l < |firsts| && k != l
    requires forall i, j | 0 <= i < j < |firsts| :: firsts[i] < firsts[j]
    requires forall i | 0 <= i < |firsts| :: firsts[i] < |pkgs| && IsFirst(pkgs, firsts[i])
    ensures KeyOf(pkgs[firsts[k]]) != KeyOf(pkgs[firsts[l]])
  {
  }

  /** A package whose key was not seen is the first with it. */
  lemma {:induction false} NewKey(pkgs: seq<Package>, n: nat, firsts: seq<nat>)
    requires n < |pkgs| && (forall i | 0 <= i < n && IsFirst(pkgs, i) :: i in firsts)
    requires forall i | i in firsts :: i < |pkgs| && KeyOf(pkgs[i]) != KeyOf(pkgs[n])
    ensures IsFirst(pkgs, n)
  {
    hide KeyOf;
    forall j | 0 <= j < n ensures KeyOf(pkgs[j]) != KeyOf(pkgs[n]) {
      var i := FirstWith(pkgs, j);
      assert i in firsts;
    }
  }

  lemma {:induction false} FirstWith(pkgs: seq<Package>, j: nat) returns (i: nat)
    requires j < |pkgs|
    ensures i <= j && IsFirst(pkgs, i) && KeyOf(pkgs[i]) == KeyOf(pkgs[j])
    decreases j
  {
    if IsFirst(pkgs, j) {
      i := j;
    } else {
      var k :| 0 <= k < j && KeyOf(pkgs[k]) == KeyOf(pkgs[j]);
      i := FirstWith(pkgs, k);
    }
  }

  lemma NewestReplaced(trim: Data -> Data, pkgs: seq<Package>, n: nat, m: nat)
    requires m < n < |pkgs| && IsNewest(trim, pkgs, n, m) && KeyOf(pkgs[m]) == KeyOf(pkgs[n])
    requires Order(VersionOf(trim, pkgs[n]), VersionOf(trim, pkgs[m])) > 0
    ensures IsNewest(trim, pkgs, n + 1, n)
  {
    hide Order, KeyOf, VersionOf;
    var new_ := VersionOf(trim, pkgs[n]);
    OrderSelf(new_);
    forall i | 0 <= i < n && KeyOf(pkgs[i]) == KeyOf(pkgs[n])
      ensures Order(VersionOf(trim, pkgs[i]), new_) < 0
    {
      OrderFlips(new_, VersionOf(trim, pkgs[m]));
      OrderChains(VersionOf(trim, pkgs[i]), VersionOf(trim, pkgs[m]), new_);
    }
  }

  lemma OrderSelf(v: Version)
    ensures Order(v, v) == 0
  {
    CompareFlips(Key(v.upstream), Key(v.upstream));
    CompareFlips(Key(v.revision), Key(v.revision));
  }

  /** That determines the result. */
  lemma NewestDetermined(trim: Data -> Data, pkgs: seq<Package>, a: seq<Package>, b: seq<Package>)
    requires EpochsFit(trim, pkgs) && NewestOnly(trim, pkgs, a) && NewestOnly(trim, pkgs, b)
    ensures a == b
  {
    hide Order, KeyOf, VersionOf, EpochsFit;
    var firsts, picks :| Filtered(trim, pkgs, |pkgs|, a, firsts, picks);
    var seconds, others :| Filtered(trim, pkgs, |pkgs|, b, seconds, others);
    forall i ensures i in firsts <==> i in seconds {
    }
    SameSorted(firsts, seconds);
    forall k | 0 <= k < |a| ensures a[k] == b[k] {
      OneNewest(trim, pkgs, picks[k], others[k]);
    }
  }

  lemma OneNewest(trim: Data -> Data, pkgs: seq<Package>, m: nat, n: nat)
    requires m < |pkgs| && n < |pkgs| && KeyOf(pkgs[m]) == KeyOf(pkgs[n])
    requires IsNewest(trim, pkgs, |pkgs|, m) && IsNewest(trim, pkgs, |pkgs|, n)
    ensures m == n
  {
    hide Order, KeyOf, VersionOf;
    OrderFlips(VersionOf(trim, pkgs[m]), VersionOf(trim, pkgs[n]));
    OrderFlips(VersionOf(trim, pkgs[n]), VersionOf(trim, pkgs[m]));
  }

  lemma SomeElement(a: seq<nat>)
    ensures a != [] ==> exists x :: x in a
  {
    if a != [] {
      assert a[0] in a;
    }
  }

  /** Two increasing sequences with the same elements are the same. */
  lemma {:induction false} SameSorted(a: seq<nat>, b: seq<nat>)
    requires forall i, j | 0 <= i < j < |a| :: a[i] < a[j]
    requires forall i, j | 0 <= i < j < |b| :: b[i] < b[j]
    requires forall x :: x in a <==> x in b
    ensures a == b
  {
    if a == [] {
      SomeElement(b);
    } else if b == [] {
      SomeElement(a);
    } else {
      assert a[0] in b && b[0] in a;
      forall x ensures x in a[1..] <==> x in b[1..] {
        assert x in a <==> x == a[0] || x in a[1..];
        assert x in b <==> x == b[0] || x in b[1..];
      }
      SameSorted(a[1..], b[1..]);
    }
  }

  lemma ComparedIs(trim: Data -> Data, p: Package, q: Package, c: int)
    requires Compared(trim, p, q, c)
    ensures c == CodeOrder(VersionOf(trim, p), VersionOf(trim, q))
  {
    hide Order, VersionOf;
  }

  // ---- when the newest is kept ----

  /** Nothing with a key is newer than what is kept of it. */
  ghost predicate KeepsNewest(trim: Data -> Data, pkgs: seq<Package>)
  {
    forall i | 0 <= i < |pkgs| :: NotNewer(trim, pkgs[i], Kept(trim, pkgs, KeyOf(pkgs[i])))
  }

  ghost predicate NotNewer(trim: Data -> Data, p: Package, kept: Option<Package>)
  {
    kept.Some? && Order(VersionOf(trim, p), VersionOf(trim, kept.value)) <= 0
  }

  /** The versions of a list are all among the given ones. */
  ghost predicate From(pkgs: seq<Package>, versions: iset<Data>)
  {
    forall i | 0 <= i < |pkgs| :: pkgs[i].version in versions
  }

  /** The epochs of any two of the versions can be subtracted. */
  ghost predicate EpochsClose(trim: Data -> Data, versions: iset<Data>)
  {
    forall v, w | v in versions && w in versions :: InRange(Split(trim(v)).epoch - Split(trim(w)).epoch)
  }

  lemma {:induction false} NewestOfClose(trim: Data -> Data, versions: iset<Data>, pkgs: seq<Package>)
    requires EpochsClose(trim, versions) && From(pkgs, versions)
    ensures KeepsNewest(trim, pkgs)
  {
    hide Order, Split, KeyOf;
    if pkgs != [] {
      var n := |pkgs| - 1;
      NewestOfClose(trim, versions, pkgs[..n]);
      var last := pkgs[n];
      OrderSelf(VersionOf(trim, last));
      forall i | 0 <= i < |pkgs| ensures NotNewer(trim, pkgs[i], Kept(trim, pkgs, KeyOf(pkgs[i]))) {
        if i < n {
          assert NotNewer(trim, pkgs[..n][i], Kept(trim, pkgs[..n], KeyOf(pkgs[..n][i])));
        }
        var before := Kept(trim, pkgs[..n], KeyOf(last));
        if before.Some? && KeyOf(pkgs[i]) == KeyOf(last) {
          assert before.value.version in versions;
          OrderFlips(VersionOf(trim, last), VersionOf(trim, before.value));
          if i < n && Order(VersionOf(trim, before.value), VersionOf(trim, last)) <= 0 {
            OrderChains(VersionOf(trim, pkgs[i]), VersionOf(trim, before.value), VersionOf(trim, last));
          }
        }
      }
    }
  }

  /** The newest of each key is kept, whatever the list of packages, exactly if the epochs of the
      versions in it can be subtracted from one another. */
  lemma NewestIff(trim: Data -> Data, versions: iset<Data>)
    ensures (forall pkgs | From(pkgs, versions) :: KeepsNewest(trim, pkgs)) <==> EpochsClose(trim, versions)
  {
    hide Order, Split, KeepsNewest;
    if EpochsClose(trim, versions) {
      forall pkgs | From(pkgs, versions) ensures KeepsNewest(trim, pkgs) {
        NewestOfClose(trim, versions, pkgs);
      }
    } else {
      var v, w :| v in versions && w in versions && !InRange(Split(trim(v)).epoch - Split(trim(w)).epoch);
      var p, q := Package([], [], v, []), Package([], [], w, []);
      if Split(trim(v)).epoch > Split(trim(w)).epoch {
        LosesNewest(trim, q, p);
        assert From([q, p], versions);
      } else {
        FarBothWays(Split(trim(v)).epoch, Split(trim(w)).epoch);
        LosesNewest(trim, p, q);
        assert From([p, q], versions);
      }
    }
  }

  lemma FarBothWays(e: int, f: int)
    requires !InRange(e - f) && e <= f
    ensures !InRange(f - e) && e < f
  {
  }

  lemma LosesNewest(trim: Data -> Data, p: Package, q: Package)
    requires KeyOf(p) == KeyOf(q) && VersionOf(trim, q).epoch > VersionOf(trim, p).epoch
    requires !InRange(VersionOf(trim, q).epoch - VersionOf(trim, p).epoch)
    ensures !KeepsNewest(trim, [p, q])
  {
    hide Split, KeyOf;
    var all := [p, q];
    assert all[..1] == [p] && [p][..0] == [];
    assert Kept(trim, [p], KeyOf(p)) == Some(p);
    assert Kept(trim, all, KeyOf(p)) == Some(p);
    assert all[1] == q && !NotNewer(trim, q, Some(p));
  }
}
