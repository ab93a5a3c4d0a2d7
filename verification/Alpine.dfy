/** The Alpine version order and the newest package of each name. */
module Alpine {
  import opened Bytes
  import opened Lexical
  import opened DebianVersion

  /** A "_suffix" of a version: its rank, negative before the bare version and positive after it, and its number. */
  datatype Suffix = Suffix(rank: int, num: nat)

  /** A version that fits the grammar. */
  datatype Parsed = Parsed(nums: seq<Data>, letter: nat, suffixes: seq<Suffix>, rel: nat)

  ghost predicate WellFormed(p: Parsed)
  {
    && (forall i | 0 <= i < |p.nums| :: AllDigits(p.nums[i]) && p.nums[i] != [])
    && (forall i | 0 <= i < |p.suffixes| :: p.suffixes[i].rank != 0)
  }

  type Grammar = Data -> Option<Parsed>

  ghost predicate Sound(parse: Grammar) { forall v | parse(v).Some? :: WellFormed(parse(v).value) }

  // ---- comparing by a key ----

  /** parseVersionInt with its error taken for zero. */
  function VersionInt(s: Data): nat
  {
    if s != [] && |s| <= 18 && AllDigits(s) then Value(s) else 0
  }

  function Trimmed(s: Data): Data
  {
    if s != [] && s[|s| - 1] == 0x30 then Trimmed(s[..|s| - 1]) else s
  }

  predicate LeadingZero(s: Data) { s != [] && s[0] == 0x30 }

  /** How apkCompareNums compares two components. */
  function Component(a: Data, b: Data, first: bool): (c: int)
    ensures -1 <= c <= 1
  {
    if !first && (LeadingZero(a) || LeadingZero(b)) then Text(Trimmed(a), Trimmed(b))
    else Sign(VersionInt(a) - VersionInt(b))
  }

  /** Bytes as numbers above that of the end. */
  function TextKey(s: Data): seq<int> { if s == [] then [0] else [s[0] + 1] + TextKey(s[1..]) }

  /** Later components with a leading zero are text, below all others. */
  function ComponentKey(s: Data, first: bool): seq<int>
  {
    if !first && LeadingZero(s) then [1] + TextKey(Trimmed(s)) else [2, VersionInt(s)]
  }

  function NumsKey(nums: seq<Data>, first: bool): seq<int>
  {
    if nums == [] then [0] else ComponentKey(nums[0], first) + NumsKey(nums[1..], false)
  }

  /** A bare version ends its suffixes with rank 0. */
  function SuffixKey(list: seq<Suffix>): seq<int>
  {
    if list == [] then [0] else [list[0].rank, list[0].num] + SuffixKey(list[1..])
  }

  function KeyOf(p: Parsed): seq<int>
  {
    NumsKey(p.nums, true) + [p.letter] + SuffixKey(p.suffixes) + [p.rel]
  }

  /** The comparison of two keys that begin so: settled, or up to what follows. */
  ghost predicate Settles(k: seq<int>, l: seq<int>, c: int)
  {
    forall x, y :: Compare(k + x, l + y) == if c != 0 then c else Compare(x, y)
  }

  lemma HeadSettles(a: int, b: int)
    ensures Settles([a], [b], Sign(a - b))
  {
    forall x, y ensures Compare([a] + x, [b] + y) == if a != b then Sign(a - b) else Compare(x, y) {
      assert ([a] + x)[1..] == x && ([b] + y)[1..] == y;
    }
  }

  lemma BothSettle(k: seq<int>, l: seq<int>, c: int, m: seq<int>, n: seq<int>, d: int)
    requires Settles(k, l, c) && (c == 0 ==> Settles(m, n, d))
    ensures Settles(k + m, l + n, if c != 0 then c else d)
  {
    forall x, y ensures Compare(k + m + x, l + n + y) == if c != 0 then c else if d != 0 then d else Compare(x, y) {
      assert k + m + x == k + (m + x) && l + n + y == l + (n + y);
      assert Compare(k + (m + x), l + (n + y)) == if c != 0 then c else Compare(m + x, n + y);
    }
  }

  lemma {:induction false} TextSettles(a: Data, b: Data)
    ensures Settles(TextKey(a), TextKey(b), Text(a, b))
  {
    var x: int, y: int := if a == [] then 0 else (a[0] as int) + 1, if b == [] then 0 else (b[0] as int) + 1;
    HeadSettles(x, y);
    if a == [] && b == [] {
    } else if x != y {
      Further([x], [y], TextKey(a), TextKey(b), Sign(x - y));
    } else {
      TextSettles(a[1..], b[1..]);
      BothSettle([x], [y], 0, TextKey(a[1..]), TextKey(b[1..]), Text(a[1..], b[1..]));
    }
  }

  /** What is settled stays so. */
  lemma Further(k: seq<int>, l: seq<int>, more: seq<int>, next: seq<int>, c: int)
    requires Settles(k, l, c) && c != 0 && k <= more && l <= next
    ensures Settles(more, next, c)
  {
    forall x, y ensures Compare(more + x, next + y) == c {
      assert more + x == k + (more[|k|..] + x) && next + y == l + (next[|l|..] + y);
    }
  }

  /** A later component with a leading zero comes before any without. */
  lemma {:induction false} TrimmedHead(s: Data)
    ensures Trimmed(s) <= s && (s != [] && s[0] != 0x30 ==> Trimmed(s) != [])
  {
    if s != [] && s[|s| - 1] == 0x30 {
      TrimmedHead(s[..|s| - 1]);
    }
  }

  lemma ComponentSettles(a: Data, b: Data, first: bool)
    requires AllDigits(a) && AllDigits(b) && a != [] && b != []
    ensures Settles(ComponentKey(a, first), ComponentKey(b, first), Component(a, b, first))
  {
    var k, l, c := ComponentKey(a, first), ComponentKey(b, first), Component(a, b, first);
    if !first && LeadingZero(a) && LeadingZero(b) {
      HeadSettles(1, 1);
      TextSettles(Trimmed(a), Trimmed(b));
      BothSettle([1], [1], 0, TextKey(Trimmed(a)), TextKey(Trimmed(b)), c);
    } else if !first && (LeadingZero(a) || LeadingZero(b)) {
      TrimmedHead(a);
      TrimmedHead(b);
      HeadSettles(k[0], l[0]);
      Further([k[0]], [l[0]], k, l, c);
    } else {
      HeadSettles(2, 2);
      HeadSettles(VersionInt(a), VersionInt(b));
      BothSettle([2], [2], 0, [VersionInt(a)], [VersionInt(b)], c);
    }
  }

  /** The order of versions that parse, by their keys. */
  function Order(p: Parsed, q: Parsed): (c: int)
    ensures -1 <= c <= 1
  {
    Compare(KeyOf(p), KeyOf(q))
  }

  // ---- the comparison, component by component ----

  /** apkCompareNums. */
  method CompareNums(a: seq<Data>, b: seq<Data>) returns (c: int)
    requires forall i | 0 <= i < |a| :: AllDigits(a[i]) && a[i] != []
    requires forall i | 0 <= i < |b| :: AllDigits(b[i]) && b[i] != []
    ensures Settles(NumsKey(a, true), NumsKey(b, true), c) && -1 <= c <= 1
  {
    hide Settles, Component, ComponentKey, NumsKey, Compare, AllDigits;
    var i := 0;
    assert a[0..] == a && b[0..] == b;
    while i < |a| && i < |b|
      invariant i <= |a| && i <= |b|
      invariant forall d :: Settles(NumsKey(a[i..], i == 0), NumsKey(b[i..], i == 0), d) ==>
        Settles(NumsKey(a, true), NumsKey(b, true), d)
    {
      c := Component(a[i], b[i], i == 0);
      NumsSettle(a[i..], b[i..], i == 0);
      if c != 0 {
        return;
      }
      assert a[i..][1..] == a[i + 1..] && b[i..][1..] == b[i + 1..];
      i := i + 1;
    }
    NumsEnd(a[i..], b[i..], i == 0);
    c := Sign(|a| - |b|);
  }

  lemma NumsSettle(a: seq<Data>, b: seq<Data>, first: bool)
    requires a != [] && b != [] && AllDigits(a[0]) && a[0] != [] && AllDigits(b[0]) && b[0] != []
    ensures var c := Component(a[0], b[0], first);
      if c != 0 then Settles(NumsKey(a, first), NumsKey(b, first), c)
      else forall d :: Settles(NumsKey(a[1..], false), NumsKey(b[1..], false), d) ==> Settles(NumsKey(a, first), NumsKey(b, first), d)
  {
    hide Settles, Component, ComponentKey;
    var c, k, l := Component(a[0], b[0], first), ComponentKey(a[0], first), ComponentKey(b[0], first);
    ComponentSettles(a[0], b[0], first);
    if c != 0 {
      Further(k, l, NumsKey(a, first), NumsKey(b, first), c);
    } else {
      forall d | Settles(NumsKey(a[1..], false), NumsKey(b[1..], false), d) ensures Settles(NumsKey(a, first), NumsKey(b, first), d) {
        BothSettle(k, l, 0, NumsKey(a[1..], false), NumsKey(b[1..], false), d);
      }
    }
  }

  /** A version that ends where another goes on comes first. */
  lemma NumsEnd(a: seq<Data>, b: seq<Data>, first: bool)
    requires a == [] || b == []
    ensures Settles(NumsKey(a, first), NumsKey(b, first), Sign(|a| - |b|))
  {
    var k, l := NumsKey(a, first), NumsKey(b, first);
    HeadSettles(k[0], l[0]);
    if a != [] || b != [] {
      Further([k[0]], [l[0]], k, l, Sign(|a| - |b|));
    }
  }

  /** apkCompareSuffixes. */
  method CompareSuffixes(a: seq<Suffix>, b: seq<Suffix>) returns (c: int)
    requires forall i | 0 <= i < |a| :: a[i].rank != 0
    requires forall i | 0 <= i < |b| :: b[i].rank != 0
    ensures Settles(SuffixKey(a), SuffixKey(b), c) && -1 <= c <= 1
  {
    hide Settles, SuffixKey, Compare;
    var i := 0;
    assert a[0..] == a && b[0..] == b;
    while i < |a| && i < |b|
      invariant i <= |a| && i <= |b|
      invariant forall d :: Settles(SuffixKey(a[i..]), SuffixKey(b[i..]), d) ==> Settles(SuffixKey(a), SuffixKey(b), d)
    {
      SuffixesSettle(a[i..], b[i..]);
      c := Sign(a[i].rank - b[i].rank);
      if c != 0 {
        return;
      }
      c := Sign(a[i].num - b[i].num);
      if c != 0 {
        return;
      }
      assert a[i..][1..] == a[i + 1..] && b[i..][1..] == b[i + 1..];
      i := i + 1;
    }
    SuffixesEnd(a[i..], b[i..]);
    if |a| == |b| {
      return 0;
    }
    if |a| > |b| {
      return Sign(a[|b|].rank);
    }
    c := -Sign(b[|a|].rank);
  }

  lemma SuffixesSettle(a: seq<Suffix>, b: seq<Suffix>)
    requires a != [] && b != []
    ensures var r, n := Sign(a[0].rank - b[0].rank), Sign(a[0].num - b[0].num);
      var c := if r != 0 then r else n;
      if c != 0 then Settles(SuffixKey(a), SuffixKey(b), c)
      else forall d :: Settles(SuffixKey(a[1..]), SuffixKey(b[1..]), d) ==> Settles(SuffixKey(a), SuffixKey(b), d)
  {
    hide Settles;
    var r, n := Sign(a[0].rank - b[0].rank), Sign(a[0].num - b[0].num);
    HeadSettles(a[0].rank, b[0].rank);
    HeadSettles(a[0].num, b[0].num);
    var k, l := [a[0].rank, a[0].num], [b[0].rank, b[0].num];
    assert k == [a[0].rank] + [a[0].num] && l == [b[0].rank] + [b[0].num];
    BothSettle([a[0].rank], [b[0].rank], r, [a[0].num], [b[0].num], n);
    var c := if r != 0 then r else n;
    if c != 0 {
      Further(k, l, SuffixKey(a), SuffixKey(b), c);
    } else {
      forall d | Settles(SuffixKey(a[1..]), SuffixKey(b[1..]), d) ensures Settles(SuffixKey(a), SuffixKey(b), d) {
        BothSettle(k, l, 0, SuffixKey(a[1..]), SuffixKey(b[1..]), d);
      }
    }
  }

  lemma SuffixesEnd(a: seq<Suffix>, b: seq<Suffix>)
    requires a == [] || b == []
    requires (a != [] ==> a[0].rank != 0) && (b != [] ==> b[0].rank != 0)
    ensures Settles(SuffixKey(a), SuffixKey(b), if a != [] then Sign(a[0].rank) else if b != [] then -Sign(b[0].rank) else 0)
  {
    var k, l := SuffixKey(a), SuffixKey(b);
    HeadSettles(k[0], l[0]);
    if a != [] || b != [] {
      Further([k[0]], [l[0]], k, l, Sign(k[0] - l[0]));
    }
  }

  /** apkVersionCompare's order: by key if both versions parse, else bytewise. */
  function VersionOrder(parse: Grammar, a: Data, b: Data): (c: int)
    ensures -1 <= c <= 1
  {
    if parse(a).Some? && parse(b).Some? then Order(parse(a).value, parse(b).value) else Text(a, b)
  }

  method CompareVersions(parse: Grammar, a: Data, b: Data) returns (c: int)
    requires Sound(parse)
    ensures c == VersionOrder(parse, a, b)
  {
    hide Settles, NumsKey, SuffixKey, Compare, Text;
    var pa, pb := parse(a), parse(b);
    if pa.None? || pb.None? {
      return Text(a, b);
    }
    var p, q := pa.value, pb.value;
    assert WellFormed(p) && WellFormed(q);
    var n := CompareNums(p.nums, q.nums);
    var s := CompareSuffixes(p.suffixes, q.suffixes);
    KeysSettle(p, q, n, s);
    c := if n != 0 then n else if p.letter != q.letter then Sign(p.letter - q.letter) else if s != 0 then s else Sign(p.rel - q.rel);
  }

  lemma KeysSettle(p: Parsed, q: Parsed, n: int, s: int)
    requires Settles(NumsKey(p.nums, true), NumsKey(q.nums, true), n) && Settles(SuffixKey(p.suffixes), SuffixKey(q.suffixes), s)
    ensures Order(p, q) == if n != 0 then n else if p.letter != q.letter then Sign(p.letter - q.letter)
      else if s != 0 then s else Sign(p.rel - q.rel)
  {
    var l, r := Sign(p.letter - q.letter), Sign(p.rel - q.rel);
    HeadSettles(p.letter, q.letter);
    HeadSettles(p.rel, q.rel);
    assert Settles(KeyOf(p), KeyOf(q), if n != 0 then n else if l != 0 then l else if s != 0 then s else r) by {
      hide Settles, NumsKey, SuffixKey;
      var nl := if n != 0 then n else l;
      var nls := if nl != 0 then nl else s;
      BothSettle(NumsKey(p.nums, true), NumsKey(q.nums, true), n, [p.letter], [q.letter], l);
      BothSettle(NumsKey(p.nums, true) + [p.letter], NumsKey(q.nums, true) + [q.letter], nl, SuffixKey(p.suffixes), SuffixKey(q.suffixes), s);
      BothSettle(NumsKey(p.nums, true) + [p.letter] + SuffixKey(p.suffixes), NumsKey(q.nums, true) + [q.letter] + SuffixKey(q.suffixes),
                 nls, [p.rel], [q.rel], r);
    }
    assert KeyOf(p) + [] == KeyOf(p) && KeyOf(q) + [] == KeyOf(q);
    assert Compare([], []) == 0;
  }

  // ---- what the order says ----

  /** A component as a number: the value of up to 18 digits, zero for a longer one. */
  lemma VersionIntMeans(s: Data)
    requires AllDigits(s) && s != []
    ensures VersionInt(s) == if |s| <= 18 then Value(s) else 0
  {
  }

  /** Without its trailing zeros. */
  lemma {:induction false} TrimmedMeans(s: Data)
    ensures exists n: nat :: n <= |s| && Trimmed(s) == s[..n] && (n > 0 ==> s[n - 1] != 0x30) && forall i | n <= i < |s| :: s[i] == 0x30
  {
    if s != [] && s[|s| - 1] == 0x30 {
      var init := s[..|s| - 1];
      TrimmedMeans(init);
      var n: nat :| n <= |init| && Trimmed(init) == init[..n] && (n > 0 ==> init[n - 1] != 0x30) && forall i | n <= i < |init| :: init[i] == 0x30;
      assert Trimmed(s) == s[..n];
    } else {
      assert s[..|s|] == s;
    }
  }

  /** How two components compare: as numbers, but a later one that begins with a zero makes both text, without
      their trailing zeros. */
  ghost predicate ComponentBelow(a: Data, b: Data, first: bool)
    requires AllDigits(a) && AllDigits(b) && a != [] && b != []
  {
    if !first && (a[0] == 0x30 || b[0] == 0x30) then TextBelow(Trimmed(a), Trimmed(b))
    else (if |a| <= 18 then Value(a) else 0) < (if |b| <= 18 then Value(b) else 0)
  }

  lemma ComponentMeans(a: Data, b: Data, first: bool)
    requires AllDigits(a) && AllDigits(b) && a != [] && b != []
    ensures Component(a, b, first) < 0 <==> ComponentBelow(a, b, first)
  {
    hide Value, Trimmed;
    TextIs(Trimmed(a), Trimmed(b));
  }

  /** The first components that differ decide, and then the number of components. */
  lemma ComponentsDecide(p: Parsed, q: Parsed, i: nat)
    requires WellFormed(p) && WellFormed(q) && i <= |p.nums| && i < |q.nums| && p.nums[..i] == q.nums[..i]
    requires i == |p.nums| || ComponentBelow(p.nums[i], q.nums[i], i == 0)
    ensures Order(p, q) < 0 && Order(q, p) > 0
  {
    hide Settles, NumsKey, Compare, ComponentBelow;
    NumsDecide(p.nums, q.nums, true, i);
    OrderSettled(p, q, -1, [p.letter] + SuffixKey(p.suffixes) + [p.rel], [q.letter] + SuffixKey(q.suffixes) + [q.rel],
                 NumsKey(p.nums, true), NumsKey(q.nums, true));
  }

  lemma {:induction false} NumsDecide(a: seq<Data>, b: seq<Data>, first: bool, i: nat)
    requires forall k | 0 <= k < |a| :: AllDigits(a[k]) && a[k] != []
    requires forall k | 0 <= k < |b| :: AllDigits(b[k]) && b[k] != []
    requires i <= |a| && i < |b| && a[..i] == b[..i]
    requires i == |a| || ComponentBelow(a[i], b[i], first && i == 0)
    ensures Settles(NumsKey(a, first), NumsKey(b, first), -1)
    decreases i
  {
    hide Settles, NumsKey, ComponentBelow, Component;
    if a == [] {
      NumsEnd(a, b, first);
    } else {
      NumsSettle(a, b, first);
      if i == 0 {
        ComponentMeans(a[0], b[0], first);
        ComponentRange(a[0], b[0], first);
      } else {
        assert a[0] == a[..i][0] && b[0] == b[..i][0];
        SameComponent(a[0], first);
        assert a[1..][..i - 1] == a[..i][1..] && b[1..][..i - 1] == b[..i][1..];
        NumsDecide(a[1..], b[1..], false, i - 1);
      }
    }
  }

  lemma ComponentRange(a: Data, b: Data, first: bool)
    ensures Component(a, b, first) < 0 ==> Component(a, b, first) == -1
  {
  }

  lemma SameComponent(a: Data, first: bool)
    ensures Component(a, a, first) == 0
  {
    TextFlips(Trimmed(a), Trimmed(a));
  }

  /** What the beginning of two keys settles. */
  lemma OrderSettled(p: Parsed, q: Parsed, c: int, x: seq<int>, y: seq<int>, k: seq<int>, l: seq<int>)
    requires Settles(k, l, c) && c < 0 && KeyOf(p) == k + x && KeyOf(q) == l + y
    ensures Order(p, q) < 0 && Order(q, p) > 0
  {
    CompareFlips(KeyOf(p), KeyOf(q));
  }

  /** Of the same components the letter decides, none before any. */
  lemma LettersDecide(p: Parsed, q: Parsed)
    requires p.nums == q.nums && p.letter < q.letter
    ensures Order(p, q) < 0 && Order(q, p) > 0
  {
    hide Compare, NumsKey;
    SameSettles(NumsKey(p.nums, true));
    HeadSettles(p.letter, q.letter);
    BothSettle(NumsKey(p.nums, true), NumsKey(q.nums, true), 0, [p.letter], [q.letter], -1);
    OrderSettled(p, q, -1, SuffixKey(p.suffixes) + [p.rel], SuffixKey(q.suffixes) + [q.rel],
                 NumsKey(p.nums, true) + [p.letter], NumsKey(q.nums, true) + [q.letter]);
  }

  lemma {:induction false} SameSettles(k: seq<int>)
    ensures Settles(k, k, 0)
  {
    if k == [] {
      assert forall x: seq<int> :: [] + x == x;
    } else {
      HeadSettles(k[0], k[0]);
      SameSettles(k[1..]);
      BothSettle([k[0]], [k[0]], 0, k[1..], k[1..], 0);
      assert [k[0]] + k[1..] == k;
    }
  }

  /** Then the first suffixes that differ, by rank and number; one that only one version has by whether its
      rank is before or after that of no suffix. */
  lemma SuffixesDecide(p: Parsed, q: Parsed, i: nat)
    requires p.nums == q.nums && p.letter == q.letter && SuffixBelow(p.suffixes, q.suffixes, i)
    ensures Order(p, q) < 0 && Order(q, p) > 0
  {
    hide Compare, NumsKey, SuffixKey, Settles, SuffixBelow;
    var k := NumsKey(p.nums, true) + [p.letter];
    SameSettles(k);
    SuffixesSettled(p.suffixes, q.suffixes, i);
    BothSettle(k, k, 0, SuffixKey(p.suffixes), SuffixKey(q.suffixes), -1);
    OrderSettled(p, q, -1, [p.rel], [q.rel], k + SuffixKey(p.suffixes), k + SuffixKey(q.suffixes));
  }

  ghost predicate SuffixBelow(a: seq<Suffix>, b: seq<Suffix>, i: nat)
  {
    && i <= |a| && i <= |b| && a[..i] == b[..i]
    && ((i < |a| && i < |b| && (a[i].rank < b[i].rank || (a[i].rank == b[i].rank && a[i].num < b[i].num)))
        || (i == |a| && i < |b| && b[i].rank > 0) || (i < |a| && i == |b| && a[i].rank < 0))
  }

  lemma {:induction false} SuffixesSettled(a: seq<Suffix>, b: seq<Suffix>, i: nat)
    requires SuffixBelow(a, b, i)
    ensures Settles(SuffixKey(a), SuffixKey(b), -1)
    decreases i
  {
    hide Settles, SuffixKey;
    if a == [] || b == [] {
      SuffixesEnd(a, b);
    } else {
      SuffixesSettle(a, b);
      if i > 0 {
        assert a[0] == a[..i][0] && b[0] == b[..i][0];
        assert a[1..][..i - 1] == a[..i][1..] && b[1..][..i - 1] == b[..i][1..];
        SuffixesSettled(a[1..], b[1..], i - 1);
      }
    }
  }

  /** And last the package release. */
  lemma ReleasesDecide(p: Parsed, q: Parsed)
    requires p == q.(rel := p.rel) && p.rel < q.rel
    ensures Order(p, q) < 0 && Order(q, p) > 0
  {
    hide Compare, NumsKey, SuffixKey;
    var k := NumsKey(p.nums, true) + [p.letter] + SuffixKey(p.suffixes);
    SameSettles(k);
    HeadSettles(p.rel, q.rel);
    BothSettle(k, k, 0, [p.rel], [q.rel], -1);
    OrderSettled(p, q, -1, [], [], k + [p.rel], k + [q.rel]);
  }

  // ---- when the order is one ----

  /** Comparing the other way round gives the opposite; so any two versions compare. */
  lemma OrderFlips(parse: Grammar, a: Data, b: Data)
    ensures VersionOrder(parse, b, a) == -VersionOrder(parse, a, b)
  {
    TextFlips(a, b);
    if parse(a).Some? && parse(b).Some? {
      CompareFlips(KeyOf(parse(a).value), KeyOf(parse(b).value));
    }
  }

  /** Versions that parse are totally preordered. */
  lemma ParsedChain(parse: Grammar, a: Data, b: Data, c: Data)
    requires parse(a).Some? && parse(b).Some? && parse(c).Some?
    requires VersionOrder(parse, a, b) <= 0 && VersionOrder(parse, b, c) <= 0
    ensures VersionOrder(parse, a, c) <= 0
  {
    CompareChains(KeyOf(parse(a).value), KeyOf(parse(b).value), KeyOf(parse(c).value));
  }

  /** The order does not go round on a set of versions. */
  ghost predicate Transitive(parse: Grammar, versions: iset<Data>)
  {
    forall a, b, c | a in versions && b in versions && c in versions ::
      VersionOrder(parse, a, b) <= 0 && VersionOrder(parse, b, c) <= 0 ==> VersionOrder(parse, a, c) <= 0
  }

  /** A version that does not parse lies, as text, between two that do and that are the other way round. */
  ghost predicate Between(parse: Grammar, a: Data, u: Data, b: Data)
  {
    && parse(a).Some? && parse(b).Some? && parse(u).None?
    && VersionOrder(parse, a, b) <= 0 && Text(b, u) < 0 && Text(u, a) < 0
  }

  ghost predicate Consistent(parse: Grammar, versions: iset<Data>)
  {
    forall a, u, b | a in versions && u in versions && b in versions :: !Between(parse, a, u, b)
  }

  lemma ChainOrBetween(parse: Grammar, a: Data, b: Data, c: Data)
    requires VersionOrder(parse, a, b) <= 0 && VersionOrder(parse, b, c) <= 0
    ensures VersionOrder(parse, a, c) <= 0 || Between(parse, b, a, c) || Between(parse, a, c, b) || Between(parse, c, b, a)
  {
    hide Text, Order;
    TextFlips(a, b);
    TextFlips(b, c);
    TextFlips(a, c);
    OrderFlips(parse, a, c);
    if parse(a).Some? && parse(b).Some? && parse(c).Some? {
      ParsedChain(parse, a, b, c);
    } else if Text(a, b) <= 0 && Text(b, c) <= 0 {
      TextChains(a, b, c);
    }
  }

  lemma BetweenTurns(parse: Grammar, a: Data, u: Data, b: Data)
    ensures Between(parse, a, u, b) ==>
      VersionOrder(parse, a, b) <= 0 && VersionOrder(parse, b, u) <= 0 && VersionOrder(parse, a, u) > 0
  {
    hide Text, Order;
    TextFlips(u, a);
  }

  /** The order is one exactly on consistent sets. */
  lemma TransitiveIff(parse: Grammar, versions: iset<Data>)
    ensures Transitive(parse, versions) <==> Consistent(parse, versions)
  {
    hide Text, Order;
    if Consistent(parse, versions) {
      forall a, b, c | a in versions && b in versions && c in versions && VersionOrder(parse, a, b) <= 0 && VersionOrder(parse, b, c) <= 0
        ensures VersionOrder(parse, a, c) <= 0
      {
        ChainOrBetween(parse, a, b, c);
      }
    }
    if Transitive(parse, versions) {
      forall a, u, b | a in versions && u in versions && b in versions ensures !Between(parse, a, u, b) {
        BetweenTurns(parse, a, u, b);
      }
    }
  }

  /** "10" < "5-foo" < "9" < "10". */
  lemma GoesRound(parse: Grammar)
    requires parse([0x31, 0x30]) == Some(Parsed([[0x31, 0x30]], 0, [], 0)) && parse([0x39]) == Some(Parsed([[0x39]], 0, [], 0))
    requires parse([0x35, 0x2d, 0x66, 0x6f, 0x6f]) == None
    ensures var ten, foo, nine := [0x31, 0x30], [0x35, 0x2d, 0x66, 0x6f, 0x6f], [0x39];
      VersionOrder(parse, ten, foo) < 0 && VersionOrder(parse, foo, nine) < 0 && VersionOrder(parse, nine, ten) < 0
  {
    var ten: Data, foo: Data, nine: Data := [0x31, 0x30], [0x35, 0x2d, 0x66, 0x6f, 0x6f], [0x39];
    assert Text(ten, foo) < 0 && Text(foo, nine) < 0;
    var p, q := parse(nine).value, parse(ten).value;
    assert Value(nine[..0]) == 0 && Value(nine) == 9;
    assert ten[..1] == [0x31] && Value(ten[..1][..0]) == 0 && Value(ten[..1]) == 1 && Value(ten) == 10;
    assert NumsKey(p.nums, true)[..2] == [2, 9] && NumsKey(q.nums, true)[..2] == [2, 10];
    HeadSettles(2, 2);
    HeadSettles(9, 10);
    BothSettle([2], [2], 0, [9], [10], -1);
    assert [2] + [9] == [2, 9] && [2] + [10] == [2, 10];
    Further([2, 9], [2, 10], KeyOf(p), KeyOf(q), -1);
    assert KeyOf(p) + [] == KeyOf(p) && KeyOf(q) + [] == KeyOf(q);
  }

  // ---- the newest of each name ----

  datatype Stanza = Stanza(name: string, version: Data, text: string)

  /** The names, in the order they first occur. */
  function Names(stanzas: seq<Stanza>): seq<string>
  {
    if stanzas == [] then []
    else
      var before, name := Names(stanzas[..|stanzas| - 1]), stanzas[|stanzas| - 1].name;
      if name in before then before else before + [name]
  }

  /** Each name of a stanza once, and before another exactly if its first stanza comes before. */
  lemma {:induction false} NamesMean(stanzas: seq<Stanza>)
    ensures forall n :: n in Names(stanzas) <==> exists i :: 0 <= i < |stanzas| && stanzas[i].name == n
    ensures forall k | 0 <= k < |Names(stanzas)| :: Leads(stanzas, Names(stanzas), k)
  {
    if stanzas != [] {
      var n := |stanzas| - 1;
      var init, last, before, now := stanzas[..n], stanzas[n].name, Names(stanzas[..n]), Names(stanzas);
      NamesMean(init);
      forall x ensures x in now <==> exists i :: 0 <= i < |stanzas| && stanzas[i].name == x {
        if x in before {
          var i :| 0 <= i < n && init[i].name == x;
          assert stanzas[i].name == x;
        }
        if i :| 0 <= i < |stanzas| && stanzas[i].name == x {
          assert i < n ==> init[i].name == x;
          assert x == last || x in before;
        }
      }
      forall k | 0 <= k < |now| ensures Leads(stanzas, now, k) {
        if k < |before| {
          assert Leads(init, before, k);
          var i: nat :| i < n && init[i].name == before[k] && forall j | 0 <= j < i :: init[j].name in before[..k];
          assert stanzas[i].name == now[k] && now[..k] == before[..k];
        } else {
          assert now[..k] == before;
          forall j | 0 <= j < n ensures stanzas[j].name in before {
            assert init[j].name == stanzas[j].name;
          }
        }
      }
    }
  }

  /** The stanzas before the first of the k-th name are all of names before it, which it is none of. */
  ghost predicate Leads(stanzas: seq<Stanza>, names: seq<string>, k: nat)
    requires k < |names|
  {
    names[k] !in names[..k] && exists i: nat :: i < |stanzas| && stanzas[i].name == names[k] && forall j | 0 <= j < i :: stanzas[j].name in names[..k]
  }

  /** The stanza kept of a name. */
  function Kept(parse: Grammar, stanzas: seq<Stanza>, name: string): (k: Option<Stanza>)
    ensures k.Some? ==> k.value in stanzas && k.value.name == name
  {
    if stanzas == [] then None
    else
      var before, last := Kept(parse, stanzas[..|stanzas| - 1], name), stanzas[|stanzas| - 1];
      if last.name != name then before
      else if before.None? || VersionOrder(parse, last.version, before.value.version) > 0 then Some(last) else before
  }

  /** filterNewestApk. */
  method FilterNewest(parse: Grammar, stanzas: seq<Stanza>) returns (out: seq<Stanza>)
    requires Sound(parse)
    ensures |out| == |Names(stanzas)|
    ensures forall k | 0 <= k < |out| :: Some(out[k]) == Kept(parse, stanzas, Names(stanzas)[k])
  {
    hide VersionOrder;
    var best: map<string, Stanza>, order: seq<string> := map[], [];
    for i := 0 to |stanzas|
      invariant order == Names(stanzas[..i])
      invariant forall n :: (if n in best then Some(best[n]) else None) == Kept(parse, stanzas[..i], n)
      invariant forall n | n in order :: n in best
      invariant forall n | n in best :: n in order
    {
      var st := stanzas[i];
      assert stanzas[..i + 1][..i] == stanzas[..i];
      if st.name !in best {
        best, order := best[st.name := st], order + [st.name];
      } else {
        var c := CompareVersions(parse, st.version, best[st.name].version);
        assert Some(best[st.name]) == Kept(parse, stanzas[..i], st.name);
        if c > 0 {
          best := best[st.name := st];
        }
      }
    }
    assert stanzas[..|stanzas|] == stanzas;
    out := [];
    for i := 0 to |order|
      invariant |out| == i && forall k | 0 <= k < i :: Some(out[k]) == Kept(parse, stanzas, order[k])
    {
      assert order[i] in order;
      assert Some(best[order[i]]) == Kept(parse, stanzas, order[i]);
      out := out + [best[order[i]]];
    }
  }

  /** Nothing of a name is newer than what is kept of it. */
  ghost predicate KeepsNewest(parse: Grammar, stanzas: seq<Stanza>)
  {
    forall i | 0 <= i < |stanzas| ::
      var kept := Kept(parse, stanzas, stanzas[i].name);
      kept.Some? && VersionOrder(parse, stanzas[i].version, kept.value.version) <= 0
  }

  ghost predicate From(stanzas: seq<Stanza>, versions: iset<Data>)
  {
    forall i | 0 <= i < |stanzas| :: stanzas[i].version in versions
  }

  lemma {:induction false} NewestOfTransitive(parse: Grammar, versions: iset<Data>, stanzas: seq<Stanza>)
    requires Transitive(parse, versions) && From(stanzas, versions)
    ensures KeepsNewest(parse, stanzas)
  {
    hide VersionOrder;
    if stanzas != [] {
      var n := |stanzas| - 1;
      NewestOfTransitive(parse, versions, stanzas[..n]);
      var last := stanzas[n];
      OrderFlips(parse, last.version, last.version);
      forall i | 0 <= i < |stanzas|
        ensures var kept := Kept(parse, stanzas, stanzas[i].name);
          kept.Some? && VersionOrder(parse, stanzas[i].version, kept.value.version) <= 0
      {
        if stanzas[i].name == last.name {
          var before := Kept(parse, stanzas[..n], last.name);
          if i < n {
            assert stanzas[..n][i] == stanzas[i];
          }
          if before.Some? {
            OrderFlips(parse, last.version, before.value.version);
            assert before.value.version in versions;
          }
        } else {
          assert stanzas[..n][i] == stanzas[i];
        }
      }
    }
  }

  /** The newest of each name is kept whatever the list of stanzas, exactly if the versions in it are
      consistent: whenever all parse, say, or none does. */
  lemma NewestIff(parse: Grammar, versions: iset<Data>)
    ensures (forall stanzas | From(stanzas, versions) :: KeepsNewest(parse, stanzas)) <==> Consistent(parse, versions)
  {
    hide VersionOrder;
    TransitiveIff(parse, versions);
    if Consistent(parse, versions) {
      forall stanzas | From(stanzas, versions) ensures KeepsNewest(parse, stanzas) {
        NewestOfTransitive(parse, versions, stanzas);
      }
    } else {
      var a, u, b :| a in versions && u in versions && b in versions && Between(parse, a, u, b);
      LosesNewest(parse, a, u, b);
      assert From([Stanza("", b, ""), Stanza("", a, ""), Stanza("", u, "")], versions);
    }
  }

  lemma LosesNewest(parse: Grammar, a: Data, u: Data, b: Data)
    requires Between(parse, a, u, b)
    ensures !KeepsNewest(parse, [Stanza("", b, ""), Stanza("", a, ""), Stanza("", u, "")])
  {
    hide Text, Order;
    TextFlips(u, a);
    TextFlips(b, u);
    var x, y, z := Stanza("", b, ""), Stanza("", a, ""), Stanza("", u, "");
    var all := [x, y, z];
    assert all[..2] == [x, y] && [x, y][..1] == [x] && [x][..0] == [];
    assert Kept(parse, [x], "") == Some(x);
    assert Kept(parse, [x, y], "") == Some(x);
    assert Kept(parse, all, "") == Some(z);
    assert all[1] == y && VersionOrder(parse, a, u) > 0;
  }
}
