/** Sequence ranges: the high side's report of missing bundles and the low side's reading of it. */
module Sequences {
  import opened Bytes
  import DebianVersion
  import Lexical

  const MAX := 0x7fff_ffff_ffff_ffff
  const MIN := -0x8000_0000_0000_0000

  datatype Range = Range(start: int, end: int)

  /** An accepted range: positive, not descending, in int64. */
  predicate RangeOk(r: Range) { 1 <= r.start <= r.end <= MAX }

  ghost predicate RangesOk(s: seq<Range>) { forall i | 0 <= i < |s| :: RangeOk(s[i]) }

  /** The numbers a list of ranges stands for. */
  ghost predicate In(s: seq<Range>, n: int) { exists i :: 0 <= i < |s| && s[i].start <= n <= s[i].end }

  /** Sorted, disjoint and not even adjacent. */
  predicate Normal(s: seq<Range>)
  {
    && (forall i | 0 <= i < |s| :: s[i].start <= s[i].end)
    && (forall i, k | 0 <= i < k < |s| :: s[i].end + 1 < s[k].start)
  }

  lemma {:induction false} NormalRest(s: seq<Range>)
    requires Normal(s) && s != []
    ensures Normal(s[1..]) && forall n :: In(s, n) <==> s[0].start <= n <= s[0].end || In(s[1..], n)
  {
    forall n ensures In(s, n) <==> s[0].start <= n <= s[0].end || In(s[1..], n) {
      if In(s[1..], n) {
        var i :| 0 <= i < |s[1..]| && s[1..][i].start <= n <= s[1..][i].end;
        assert s[i + 1] == s[1..][i];
      }
      if In(s, n) {
        var i :| 0 <= i < |s| && s[i].start <= n <= s[i].end;
        assert i > 0 ==> s[1..][i - 1] == s[i];
      }
    }
  }

  /** A set of numbers has one normal form: its maximal intervals in order. */
  lemma {:induction false} NormalUnique(s: seq<Range>, t: seq<Range>)
    requires Normal(s) && Normal(t) && forall n :: In(s, n) <==> In(t, n)
    ensures s == t
    decreases |s|
  {
    if s == [] || t == [] {
      if s != [] {
        assert In(s, s[0].start);
      } else if t != [] {
        assert In(t, t[0].start);
      }
    } else {
      NormalRest(s);
      NormalRest(t);
      SameFirst(s, t);
      SameFirst(t, s);
      forall n ensures In(s[1..], n) <==> In(t[1..], n) {
        RestApart(s, n);
        RestApart(t, n);
        assert In(s, n) <==> In(t, n);
      }
      NormalUnique(s[1..], t[1..]);
    }
  }

  lemma RestApart(s: seq<Range>, n: int)
    requires Normal(s) && s != []
    ensures In(s[1..], n) ==> n > s[0].end + 1
  {
    if In(s[1..], n) {
      var i :| 0 <= i < |s[1..]| && s[1..][i].start <= n <= s[1..][i].end;
      assert s[i + 1] == s[1..][i];
    }
  }

  /** The first interval of one list starts no later and ends no earlier than that of the other. */
  lemma SameFirst(s: seq<Range>, t: seq<Range>)
    requires Normal(s) && Normal(t) && s != [] && t != [] && forall n :: In(s, n) <==> In(t, n)
    ensures s[0].start <= t[0].start && (s[0].start == t[0].start ==> t[0].end <= s[0].end)
  {
    assert In(t, t[0].start);
    NormalRest(s);
    RestApart(s, t[0].start);
    if s[0].start == t[0].start && t[0].end > s[0].end {
      var n := s[0].end + 1;
      assert In(t, n);
      RestApart(s, n);
    }
  }

  // ---- sorting, as the library does it ----

  predicate Before(a: Range, b: Range) { a.start < b.start || (a.start == b.start && a.end <= b.end) }

  predicate Sorted(s: seq<Range>) { forall i, k | 0 <= i < k < |s| :: Before(s[i], s[k]) }

  function Insert(r: Range, s: seq<Range>): (t: seq<Range>)
    requires Sorted(s)
    ensures Sorted(t) && multiset(t) == multiset(s) + multiset{r}
  {
    if s == [] then [r]
    else if Before(r, s[0]) then
      assert forall k | 0 <= k < |s| :: Before(r, s[k]);
      [r] + s
    else
      var rest := Insert(r, s[1..]);
      assert s == [s[0]] + s[1..];
      assert forall x | x in rest :: x in multiset(rest) && Before(s[0], x);
      [s[0]] + rest
  }

  /** sort.Slice by start, then end. */
  function Sort(s: seq<Range>): (t: seq<Range>)
    ensures Sorted(t) && multiset(t) == multiset(s)
  {
    if s == [] then []
    else
      assert s == [s[0]] + s[1..];
      Insert(s[0], Sort(s[1..]))
  }

  // ---- merging ----

  /** int64 addition of one. */
  function Next(n: int): int { if n == MAX then MIN else n + 1 }

  /** No range that reaches the greatest int64 comes before another one in sorted order. */
  ghost predicate OnlyLastIsMax(sorted: seq<Range>)
  {
    forall i | 0 <= i < |sorted| - 1 :: sorted[i].end < MAX
  }

  /** mergeSequenceRanges, with the last range of the output updated in place. It never changes which
      numbers are meant; the result is in normal form exactly when at most the last sorted range
      reaches the greatest int64, as last.End+1 wraps around otherwise. */
  method Merge(ranges: seq<Range>) returns (out: seq<Range>)
    requires RangesOk(ranges)
    ensures RangesOk(out) && (forall n :: In(out, n) <==> In(ranges, n)) && (out == [] <==> ranges == [])
    ensures Normal(out) <==> OnlyLastIsMax(Sort(ranges))
  {
    if |ranges| == 0 {
      return [];
    }
    var sorted := Sort(ranges);
    SortedOk(ranges);
    out := [sorted[0]];
    assert sorted[..1] == [sorted[0]];
    for i := 1 to |sorted|
      invariant Merging(sorted, i, out)
    {
      var r := sorted[i];
      var last := out[|out| - 1];
      if r.start <= Next(last.end) {
        Absorbs(sorted, i, out);
        if r.end > last.end {
          out := out[|out| - 1 := last.(end := r.end)];
        }
      } else {
        Appends(sorted, i, out);
        out := out + [r];
      }
    }
    assert sorted[..|sorted|] == sorted;
  }

  /** The output after the first i sorted ranges. */
  ghost predicate Merging(sorted: seq<Range>, i: nat, out: seq<Range>)
  {
    && 1 <= i <= |sorted| && Sorted(sorted) && RangesOk(sorted) && out != [] && RangesOk(out)
    && (forall n :: In(out, n) <==> In(sorted[..i], n))
    && out[|out| - 1].start <= sorted[i - 1].start && sorted[i - 1].end <= out[|out| - 1].end
    && (if OnlyLastIsMax(sorted[..i]) then
          Normal(out) && (sorted[i - 1].end < MAX ==> forall k | 0 <= k < |out| :: out[k].end < MAX)
        else exists k :: 0 <= k < |out| - 1 && out[k].end == MAX)
  }

  lemma Absorbs(sorted: seq<Range>, i: nat, out: seq<Range>)
    requires Merging(sorted, i, out) && i < |sorted| && sorted[i].start <= Next(out[|out| - 1].end)
    ensures var last := out[|out| - 1];
      Merging(sorted, i + 1, if sorted[i].end > last.end then out[|out| - 1 := last.(end := sorted[i].end)] else out)
  {
    var last, r := out[|out| - 1], sorted[i];
    var now := if r.end > last.end then out[|out| - 1 := last.(end := r.end)] else out;
    assert Before(sorted[i - 1], r) && last.end < MAX && sorted[i - 1].end < MAX;
    NextPrefix(sorted, i);
    forall n ensures In(now, n) <==> In(sorted[..i + 1], n) {
      LastIn(out, n);
      LastIn(now, n);
      assert now[..|now| - 1] == out[..|out| - 1];
    }
    if !OnlyLastIsMax(sorted[..i]) {
      var k :| 0 <= k < |out| - 1 && out[k].end == MAX;
      assert now[k].end == MAX;
    }
  }

  lemma Appends(sorted: seq<Range>, i: nat, out: seq<Range>)
    requires Merging(sorted, i, out) && i < |sorted| && sorted[i].start > Next(out[|out| - 1].end)
    ensures Merging(sorted, i + 1, out + [sorted[i]])
  {
    var last, r := out[|out| - 1], sorted[i];
    var now := out + [r];
    assert Before(sorted[i - 1], r);
    NextPrefix(sorted, i);
    assert now[..|now| - 1] == out && now[|out| - 1] == last;
    forall n ensures In(now, n) <==> In(sorted[..i + 1], n) {
      LastIn(now, n);
    }
    if !OnlyLastIsMax(sorted[..i + 1]) {
      if OnlyLastIsMax(sorted[..i]) {
        assert now[|out| - 1].end == MAX;
      } else {
        var k :| 0 <= k < |out| - 1 && out[k].end == MAX;
        assert now[k].end == MAX;
      }
    }
  }

  lemma NextPrefix(sorted: seq<Range>, i: nat)
    requires 1 <= i < |sorted|
    ensures forall n :: In(sorted[..i + 1], n) <==> In(sorted[..i], n) || sorted[i].start <= n <= sorted[i].end
    ensures OnlyLastIsMax(sorted[..i + 1]) <==> OnlyLastIsMax(sorted[..i]) && sorted[i - 1].end < MAX
  {
    var now, was := sorted[..i + 1], sorted[..i];
    assert now[..|now| - 1] == was && now[|now| - 1] == sorted[i];
    forall n ensures In(now, n) <==> In(was, n) || sorted[i].start <= n <= sorted[i].end {
      LastIn(now, n);
    }
    assert now[i - 1] == sorted[i - 1];
    assert forall k | 0 <= k < i - 1 :: now[k] == was[k];
  }

  lemma LastIn(s: seq<Range>, n: int)
    requires s != []
    ensures In(s, n) <==> In(s[..|s| - 1], n) || s[|s| - 1].start <= n <= s[|s| - 1].end
  {
    var init := s[..|s| - 1];
    if In(init, n) {
      var i :| 0 <= i < |init| && init[i].start <= n <= init[i].end;
      assert s[i] == init[i];
    }
    if In(s, n) {
      var i :| 0 <= i < |s| && s[i].start <= n <= s[i].end;
      assert i < |s| - 1 ==> init[i] == s[i];
    }
  }

  lemma SortedOk(ranges: seq<Range>)
    requires RangesOk(ranges)
    ensures RangesOk(Sort(ranges)) && |Sort(ranges)| == |ranges| && forall n :: In(Sort(ranges), n) <==> In(ranges, n)
  {
    var sorted := Sort(ranges);
    assert |multiset(sorted)| == |multiset(ranges)|;
    forall i | 0 <= i < |sorted| ensures RangeOk(sorted[i]) {
      assert sorted[i] in multiset(sorted) && sorted[i] in multiset(ranges);
    }
    forall n ensures In(sorted, n) <==> In(ranges, n) {
      InElement(sorted, n);
      InElement(ranges, n);
      SameElements(sorted, ranges);
    }
  }

  lemma SameElements(s: seq<Range>, t: seq<Range>)
    requires multiset(s) == multiset(t)
    ensures forall x :: x in s <==> x in t
  {
    forall x ensures x in s <==> x in t {
      assert x in s <==> x in multiset(s);
      assert x in t <==> x in multiset(t);
    }
  }

  lemma InElement(s: seq<Range>, n: int)
    ensures In(s, n) <==> exists x :: x in s && x.start <= n <= x.end
  {
    if x :| x in s && x.start <= n <= x.end {
      var i :| 0 <= i < |s| && s[i] == x;
    }
  }

  // ---- what is missing ----

  predicate Ascending(s: seq<int>) { forall i, k | 0 <= i < k < |s| :: s[i] <= s[k] }

  function InsertNumber(n: int, s: seq<int>): (t: seq<int>)
    requires Ascending(s)
    ensures Ascending(t) && forall x :: x in t <==> x == n || x in s
  {
    if s == [] then [n]
    else if n <= s[0] then [n] + s
    else
      var rest := InsertNumber(n, s[1..]);
      assert forall x | x in rest :: s[0] <= x;
      assert forall i | 0 <= i < |rest| :: rest[i] in rest;
      [s[0]] + rest
  }

  function SortNumbers(s: seq<int>): (t: seq<int>)
    ensures Ascending(t) && forall x :: x in t <==> x in s
  {
    if s == [] then [] else InsertNumber(s[0], SortNumbers(s[1..]))
  }

  /** missingRanges: the numbers from start to end that are not present, as maximal ranges, whatever
      order the map is walked in. The cursor never leaves int64. */
  method Missing(start: int, end: int, present: map<int, bool>) returns (out: seq<Range>)
    requires MIN <= start && end <= MAX
    ensures Normal(out)
    ensures forall n :: In(out, n) <==> start <= n <= end && !(n in present && present[n])
  {
    out := [];
    if end < start {
      return;
    }
    var seen := Present(start, end, present);
    seen := SortNumbers(seen);
    var cursor := start;
    for i := 0 to |seen|
      invariant start <= cursor <= MAX && cursor <= end + 1 && (forall k | 0 <= k < i :: seen[k] < cursor)
      invariant Normal(out) && forall k | 0 <= k < |out| :: out[k].end + 1 < cursor
      invariant forall n :: In(out, n) <==> start <= n < cursor && n !in seen
    {
      var number := seen[i];
      assert number in seen;
      if number < cursor {
        continue;
      }
      AddGap(out, cursor, number - 1);
      assert forall n | cursor <= n < number :: n !in seen;
      if number > cursor {
        out := out + [Range(cursor, number - 1)];
      }
      if number == MAX {
        return;
      }
      cursor := number + 1;
    }
    assert forall n | n in seen :: n < cursor;
    AddGap(out, cursor, end);
    if cursor <= end {
      out := out + [Range(cursor, end)];
    }
  }

  lemma AddGap(out: seq<Range>, from: int, to: int)
    requires Normal(out) && (forall k | 0 <= k < |out| :: out[k].end + 1 < from)
    ensures from <= to ==> Normal(out + [Range(from, to)])
    ensures forall n :: In(out + [Range(from, to)], n) <==> In(out, n) || from <= n <= to
  {
    var now := out + [Range(from, to)];
    forall n ensures In(now, n) <==> In(out, n) || from <= n <= to {
      LastIn(now, n);
      assert now[..|now| - 1] == out;
    }
  }

  /** The present numbers between two bounds, in whatever order the map is walked. */
  method Present(start: int, end: int, present: map<int, bool>) returns (seen: seq<int>)
    ensures forall n :: n in seen <==> n in present && present[n] && start <= n <= end
  {
    seen := [];
    var rest := present.Keys;
    while rest != {}
      invariant rest <= present.Keys
      invariant forall n :: n in seen <==> n in present && n !in rest && present[n] && start <= n <= end
      decreases |rest|
    {
      assert exists n :: n in rest by {
        assert (forall n :: n !in rest) ==> rest == {};
      }
      var n :| n in rest;
      rest := rest - {n};
      if present[n] && start <= n <= end {
        seen := seen + [n];
      }
    }
  }

  // ---- expanding ----

  /** The numbers of one range in order. */
  function Numbers(r: Range): (s: seq<int>)
    requires r.start <= r.end + 1
    ensures |s| == r.end + 1 - r.start && forall i | 0 <= i < |s| :: s[i] == r.start + i
    decreases r.end + 1 - r.start
  {
    seq(r.end + 1 - r.start, i => r.start + i)
  }

  /** All numbers, range by range. */
  function Listing(ranges: seq<Range>): (s: seq<int>)
    requires forall i | 0 <= i < |ranges| :: ranges[i].start <= ranges[i].end
    ensures forall n :: n in s <==> In(ranges, n)
  {
    if ranges == [] then []
    else
      var init := Listing(ranges[..|ranges| - 1]);
      assert forall n :: In(ranges, n) <==> In(ranges[..|ranges| - 1], n) || n in Numbers(ranges[|ranges| - 1]) by {
        forall n ensures In(ranges, n) <==> In(ranges[..|ranges| - 1], n) || n in Numbers(ranges[|ranges| - 1]) {
          LastIn(ranges, n);
          NumbersHold(ranges[|ranges| - 1], n);
        }
      }
      init + Numbers(ranges[|ranges| - 1])
  }

  lemma NumbersHold(r: Range, n: int)
    requires r.start <= r.end
    ensures n in Numbers(r) <==> r.start <= n <= r.end
  {
    if r.start <= n <= r.end {
      assert Numbers(r)[n - r.start] == n;
    }
  }

  function Take(s: seq<int>, limit: int): seq<int> { if limit > 0 && |s| > limit then s[..limit] else s }

  /** No range that reaches the greatest int64 is expanded to its end with room left. */
  ghost predicate NoneRunsOver(ranges: seq<Range>, limit: int)
    requires RangesOk(ranges)
  {
    forall i | 0 <= i < |ranges| && ranges[i].end == MAX :: limit <= |Listing(ranges[..i + 1])|
  }

  /** Where expandSequenceRanges is: in which range, its counter, and what it has listed. */
  datatype Loop = Loop(at: nat, n: int, out: seq<int>)

  function Entered(ranges: seq<Range>, i: nat, out: seq<int>): Loop { Loop(i, if i < |ranges| then ranges[i].start else 0, out) }

  /** The next test of a loop condition and what follows it, or nothing when the function returns. */
  function LoopTurn(ranges: seq<Range>, limit: int, l: Loop): Option<Loop>
  {
    if l.at >= |ranges| then None
    else if l.n > ranges[l.at].end then Some(Entered(ranges, l.at + 1, l.out))
    else if limit > 0 && |l.out| >= limit then None
    else Some(Loop(l.at, Next(l.n), l.out + [l.n]))
  }

  /** After so many turns, if the function has not returned by then. */
  function LoopAfter(ranges: seq<Range>, limit: int, l: Loop, turns: nat): Option<Loop>
    decreases turns
  {
    if turns == 0 then Some(l)
    else if LoopTurn(ranges, limit, l).None? then None
    else LoopAfter(ranges, limit, LoopTurn(ranges, limit, l).value, turns - 1)
  }

  /** With a limit the function returns, and without one exactly when no range ends at the greatest int64:
      there the counter wraps around and the loop goes on for ever. */
  lemma EndsIff(ranges: seq<Range>, limit: int)
    requires RangesOk(ranges)
    ensures (exists turns :: LoopAfter(ranges, limit, Entered(ranges, 0, []), turns).None?)
      <==> limit > 0 || forall i | 0 <= i < |ranges| :: ranges[i].end < MAX
  {
    if limit > 0 || forall i | 0 <= i < |ranges| :: ranges[i].end < MAX {
      var turns := Returns(ranges, limit, Entered(ranges, 0, []));
    } else {
      var i :| 0 <= i < |ranges| && ranges[i].end == MAX;
      forall turns ensures LoopAfter(ranges, limit, Entered(ranges, 0, []), turns).Some? {
        GoesOn(ranges, limit, Entered(ranges, 0, []), i, turns);
      }
    }
  }

  lemma {:induction false} Returns(ranges: seq<Range>, limit: int, l: Loop) returns (turns: nat)
    requires RangesOk(ranges) && (limit > 0 || forall i | 0 <= i < |ranges| :: ranges[i].end < MAX)
    requires limit > 0 ==> |l.out| <= limit
    ensures LoopAfter(ranges, limit, l, turns).None?
    decreases |ranges| - l.at, if l.at >= |ranges| then 0 else if ranges[l.at].end == MAX then limit - |l.out| else ranges[l.at].end - l.n + 1
  {
    var next := LoopTurn(ranges, limit, l);
    if next.None? {
      return 1;
    }
    var more := Returns(ranges, limit, next.value);
    turns := more + 1;
  }

  lemma {:induction false} GoesOn(ranges: seq<Range>, limit: int, l: Loop, i: nat, turns: nat)
    requires RangesOk(ranges) && limit <= 0 && i < |ranges| && ranges[i].end == MAX && l.at <= i && (l.at == i ==> l.n <= MAX)
    ensures LoopAfter(ranges, limit, l, turns).Some?
    decreases turns
  {
    if turns > 0 {
      GoesOn(ranges, limit, LoopTurn(ranges, limit, l).value, i, turns - 1);
    }
  }

  /** expandSequenceRanges, where it ends. Without a limit it ends only when no range reaches the greatest int64, since
      the counter wraps around there. With one it lists the numbers in order, up to the limit, exactly
      when no such range is expanded to its end with room left; otherwise it goes on with negative ones. */
  method Expand(ranges: seq<Range>, limit: int) returns (out: seq<int>)
    requires RangesOk(ranges) && (limit > 0 || forall i | 0 <= i < |ranges| :: ranges[i].end < MAX)
    ensures limit > 0 ==> |out| <= limit
    ensures out == Take(Listing(ranges), limit) <==> limit <= 0 || NoneRunsOver(ranges, limit)
    ensures limit > 0 && !NoneRunsOver(ranges, limit) ==> exists k :: 0 <= k < |out| && out[k] < 0
  {
    out := [];
    for i := 0 to |ranges|
      invariant limit > 0 ==> |out| <= limit
      invariant if limit <= 0 || NoneRunsOver(ranges[..i], limit) then out == Take(Listing(ranges[..i]), limit)
        else |out| == limit && exists k :: 0 <= k < |out| && out[k] < 0
    {
      ghost var before := out;
      ListingNext(ranges, i);
      out := ExpandOne(ranges[i], limit, out);
      OneMoreRange(ranges, limit, i, before, out);
    }
    assert ranges[..|ranges|] == ranges;
    if limit > 0 && !NoneRunsOver(ranges, limit) {
      var k :| 0 <= k < |out| && out[k] < 0;
      NothingNegative(ranges, limit);
      assert out[k] in out;
    }
  }

  lemma NothingNegative(ranges: seq<Range>, limit: int)
    requires RangesOk(ranges)
    ensures forall n | n in Take(Listing(ranges), limit) :: n > 0
  {
    forall n | n in Take(Listing(ranges), limit) ensures n > 0 {
      assert n in Listing(ranges);
      var i :| 0 <= i < |ranges| && ranges[i].start <= n <= ranges[i].end;
      assert RangeOk(ranges[i]);
    }
  }

  lemma ListingNext(ranges: seq<Range>, i: nat)
    requires RangesOk(ranges) && i < |ranges|
    ensures RangesOk(ranges[..i]) && RangesOk(ranges[..i + 1])
    ensures Listing(ranges[..i + 1]) == Listing(ranges[..i]) + Numbers(ranges[i])
  {
    assert ranges[..i + 1][..i] == ranges[..i];
  }

  /** The inner loop, its counter wrapping as the machine's does. */
  method ExpandOne(r: Range, limit: int, before: seq<int>) returns (out: seq<int>)
    requires RangeOk(r) && (limit > 0 || r.end < MAX) && (limit > 0 ==> |before| <= limit)
    ensures limit > 0 ==> |out| <= limit
    ensures r.end < MAX || limit <= |before| + |Numbers(r)| ==> out == Take(before + Numbers(r), limit)
    ensures !(r.end < MAX || limit <= |before| + |Numbers(r)|) ==>
      |out| == limit && out[|before| + |Numbers(r)|] == MIN && before <= out
    ensures before <= out
  {
    out := before;
    var n := r.start;
    ghost var wrapped := false;
    while n <= r.end
      invariant wrapped ==> limit > 0 && r.end == MAX && MIN <= n
      invariant limit > 0 ==> |out| <= limit
      invariant !wrapped ==> r.start <= n && n <= r.end + 1 && out == before + Numbers(Range(r.start, n - 1))
      invariant wrapped ==> |before| + |Numbers(r)| <= |out| && before <= out
      invariant wrapped && |out| > |before| + |Numbers(r)| ==> out[|before| + |Numbers(r)|] == MIN
      invariant wrapped && |out| == |before| + |Numbers(r)| ==> n == MIN && out == before + Numbers(r)
      invariant n <= MAX
      decreases if r.end == MAX then limit - |out| else r.end - n
    {
      if limit > 0 && |out| >= limit {
        assert !wrapped ==> Numbers(r)[..|out| - |before|] == Numbers(Range(r.start, n - 1));
        return;
      }
      out := out + [n];
      assert !wrapped ==> Numbers(Range(r.start, n)) == Numbers(Range(r.start, n - 1)) + [n];
      wrapped := wrapped || n == MAX;
      n := Next(n);
    }
  }

  lemma OneMoreRange(ranges: seq<Range>, limit: int, i: nat, before: seq<int>, out: seq<int>)
    requires RangesOk(ranges) && i < |ranges| && before <= out && (limit > 0 ==> |before| <= limit && |out| <= limit)
    requires RangesOk(ranges[..i]) && RangesOk(ranges[..i + 1])
    requires Listing(ranges[..i + 1]) == Listing(ranges[..i]) + Numbers(ranges[i])
    requires if limit <= 0 || NoneRunsOver(ranges[..i], limit) then before == Take(Listing(ranges[..i]), limit)
      else |before| == limit && exists k :: 0 <= k < |before| && before[k] < 0
    requires ranges[i].end < MAX || limit <= |before| + |Numbers(ranges[i])| ==> out == Take(before + Numbers(ranges[i]), limit)
    requires !(ranges[i].end < MAX || limit <= |before| + |Numbers(ranges[i])|) ==>
      |out| == limit && out[|before| + |Numbers(ranges[i])|] == MIN
    requires limit > 0 || ranges[i].end < MAX
    ensures if limit <= 0 || NoneRunsOver(ranges[..i + 1], limit) then out == Take(Listing(ranges[..i + 1]), limit)
      else |out| == limit && exists k :: 0 <= k < |out| && out[k] < 0
  {
    hide Listing, NoneRunsOver;
    var now, was, numbers := ranges[..i + 1], ranges[..i], Numbers(ranges[i]);
    if limit > 0 {
      RunsOverNext(ranges, limit, i);
      if NoneRunsOver(was, limit) {
        TakeAppend(Listing(was), numbers, limit);
      } else {
        var k :| 0 <= k < |before| && before[k] < 0;
        assert out[k] == before[k];
      }
    }
  }

  lemma TakeAppend(s: seq<int>, t: seq<int>, limit: int)
    requires limit > 0
    ensures Take(Take(s, limit) + t, limit) == Take(s + t, limit)
    ensures limit <= |Take(s, limit)| + |t| <==> limit <= |s| + |t|
  {
  }

  lemma RunsOverNext(ranges: seq<Range>, limit: int, i: nat)
    requires RangesOk(ranges) && i < |ranges| && RangesOk(ranges[..i]) && RangesOk(ranges[..i + 1])
    ensures NoneRunsOver(ranges[..i + 1], limit) <==>
      NoneRunsOver(ranges[..i], limit) && (ranges[i].end < MAX || limit <= |Listing(ranges[..i + 1])|)
  {
    hide Listing;
    var now, was := ranges[..i + 1], ranges[..i];
    assert now[..i + 1] == now && now[i] == ranges[i];
    forall k | 0 <= k < i ensures now[k] == was[k] && now[..k + 1] == was[..k + 1] {
    }
    if NoneRunsOver(now, limit) {
      forall k | 0 <= k < i && was[k].end == MAX ensures limit <= |Listing(was[..k + 1])| {
        assert now[k] == was[k] && now[..k + 1] == was[..k + 1];
        assert limit <= |Listing(now[..k + 1])|;
      }
    }
    if NoneRunsOver(was, limit) && (ranges[i].end < MAX || limit <= |Listing(now)|) {
      forall k | 0 <= k < |now| && now[k].end == MAX ensures limit <= |Listing(now[..k + 1])| {
        if k < i {
          assert now[k] == was[k] && now[..k + 1] == was[..k + 1];
          assert limit <= |Listing(was[..k + 1])|;
        }
      }
    }
  }

  // ---- text ----

  const DASH: u8 := 0x2d
  const COMMA: u8 := 0x2c

  /** The decimal digits of a number. */
  function Digits(n: nat): (d: Data)
    ensures d != [] && forall i | 0 <= i < |d| :: Lexical.IsDigit(d[i])
  {
    if n < 10 then [0x30 + n] else Digits(n / 10) + [0x30 + n % 10]
  }

  lemma {:induction false} DigitsValue(n: nat)
    ensures Lexical.Value(Digits(n)) == n
  {
    var d := Digits(n);
    if n < 10 {
      assert d[..0] == [];
    } else {
      DigitsValue(n / 10);
      assert d[..|d| - 1] == Digits(n / 10);
    }
  }

  lemma ReadsBack(n: nat)
    requires n <= MAX
    ensures DebianVersion.Atoi(Digits(n)) == Some(n)
  {
    DigitsValue(n);
    var d := Digits(n);
    assert d[0] != 0x2b && d[0] != 0x2d;
  }

  /** SequenceRange.String, for numbers that are not negative. */
  function Text(r: Range): Data
    requires 0 <= r.start && 0 <= r.end
  {
    if r.start == r.end then Digits(r.start) else Digits(r.start) + ([DASH] + Digits(r.end))
  }

  /** rangesToStrings. */
  function Texts(ranges: seq<Range>): (t: seq<Data>)
    requires RangesOk(ranges)
    ensures |t| == |ranges| && forall i | 0 <= i < |t| :: t[i] == Text(ranges[i])
  {
    seq(|ranges|, i requires 0 <= i < |ranges| => Text(ranges[i]))
  }

  /** strings.Join with commas. */
  function Join(parts: seq<Data>): Data
  {
    if parts == [] then []
    else if |parts| == 1 then parts[0]
    else parts[0] + ([COMMA] + Join(parts[1..]))
  }

  /** strings.Split at commas. */
  function Split(s: Data): (parts: seq<Data>)
    ensures parts != []
    decreases |s|
  {
    var i := DebianVersion.IndexOf(s, COMMA);
    if i.None? then [s] else [s[..i.value]] + Split(s[i.value + 1..])
  }

  lemma {:induction false} SplitJoin(parts: seq<Data>)
    requires parts != [] && forall p | p in parts :: COMMA !in p
    ensures Split(Join(parts)) == parts
  {
    var s := Join(parts);
    if |parts| > 1 {
      var rest := Join(parts[1..]);
      FirstAt(parts[0], rest, COMMA);
      SplitJoin(parts[1..]);
    } else {
      assert parts == [parts[0]] && parts[0] in parts;
    }
  }

  lemma {:induction false} FirstAt(p: Data, rest: Data, c: u8)
    requires c !in p
    ensures DebianVersion.IndexOf(p + ([c] + rest), c) == Some(|p|)
    ensures (p + ([c] + rest))[..|p|] == p && (p + ([c] + rest))[|p| + 1..] == rest
  {
    if p == [] {
      assert p + ([c] + rest) == [c] + rest;
    } else {
      FirstAt(p[1..], rest, c);
      assert (p + ([c] + rest))[1..] == p[1..] + ([c] + rest);
    }
  }

  /** parseSequenceRangePart and parseRangeBounds. trim is strings.TrimSpace. */
  function ParsePart(trim: Data -> Data, part: Data): (r: Option<Range>)
    ensures r.Some? ==> RangeOk(r.value)
  {
    var i := DebianVersion.IndexOf(part, DASH);
    var start := DebianVersion.Atoi(if i.Some? then trim(part[..i.value]) else part);
    var end := DebianVersion.Atoi(if i.Some? then trim(part[i.value + 1..]) else part);
    if start.Some? && end.Some? && RangeOk(Range(start.value, end.value)) then Some(Range(start.value, end.value))
    else None
  }

  /** What the parts of a specification name, or nothing when one is malformed. Empty parts are skipped. */
  function ParseParts(trim: Data -> Data, parts: seq<Data>): (r: Option<seq<Range>>)
    ensures r.Some? ==> RangesOk(r.value)
  {
    if parts == [] then Some([])
    else
      var init := ParseParts(trim, parts[..|parts| - 1]);
      var part := trim(parts[|parts| - 1]);
      if init.None? then None
      else if part == [] then init
      else
        var r := ParsePart(trim, part);
        if r.None? then None else Some(init.value + [r.value])
  }

  /** parseSequenceSpec: refused when empty or malformed; otherwise the ranges stand for exactly the
      numbers the parts name, in normal form unless an end wraps. */
  method ParseSpec(trim: Data -> Data, spec: Data) returns (r: Option<seq<Range>>)
    ensures var named := ParseParts(trim, Split(trim(spec)));
      && (r.None? <==> trim(spec) == [] || named.None? || named.value == [])
      && (r.Some? ==> RangesOk(r.value) && (forall n :: In(r.value, n) <==> In(named.value, n)))
      && (r.Some? ==> (Normal(r.value) <==> OnlyLastIsMax(Sort(named.value))))
  {
    hide ParsePart, DebianVersion.IndexOf;
    var text := trim(spec);
    if text == [] {
      return None;
    }
    var parts := Split(text);
    var ranges: seq<Range> := [];
    for i := 0 to |parts|
      invariant ParseParts(trim, parts[..i]) == Some(ranges)
    {
      assert parts[..i + 1][..i] == parts[..i];
      var part := trim(parts[i]);
      if part == [] {
        continue;
      }
      var one := ParsePart(trim, part);
      if one.None? {
        PartsFail(trim, parts, i + 1);
        return None;
      }
      ranges := ranges + [one.value];
    }
    assert parts[..|parts|] == parts;
    if |ranges| == 0 {
      return None;
    }
    var merged := Merge(ranges);
    r := Some(merged);
  }

  lemma {:induction false} PartsFail(trim: Data -> Data, parts: seq<Data>, i: nat)
    requires i <= |parts| && ParseParts(trim, parts[..i]).None?
    ensures ParseParts(trim, parts).None?
    decreases |parts|
  {
    if i < |parts| {
      var init := parts[..|parts| - 1];
      assert init[..i] == parts[..i];
      PartsFail(trim, init, i);
    } else {
      assert parts[..i] == parts;
    }
  }

  /** Trimming leaves text of digits, dashes and commas alone. */
  ghost predicate Trims(trim: Data -> Data)
  {
    forall s :: (forall c | c in s :: Lexical.IsDigit(c) || c == 0x2d || c == 0x2c) ==> trim(s) == s
  }

  ghost predicate Plain(s: Data) { forall c | c in s :: Lexical.IsDigit(c) || c == 0x2d || c == 0x2c }

  /** A printed range reads back. */
  lemma TextParses(trim: Data -> Data, r: Range)
    requires Trims(trim) && RangeOk(r)
    ensures ParsePart(trim, Text(r)) == Some(r) && Plain(Text(r)) && COMMA !in Text(r) && Text(r) != []
  {
    hide DebianVersion.Atoi;
    var a, b := Digits(r.start), Digits(r.end);
    ReadsBack(r.start);
    ReadsBack(r.end);
    assert DASH !in a && DASH !in b && COMMA !in a && COMMA !in b;
    if r.start == r.end {
      assert DebianVersion.IndexOf(a, DASH).None?;
    } else {
      FirstAt(a, b, DASH);
      assert Plain(a) && Plain(b);
    }
  }

  lemma {:induction false} TextsParse(trim: Data -> Data, ranges: seq<Range>)
    requires Trims(trim) && RangesOk(ranges)
    ensures ParseParts(trim, Texts(ranges)) == Some(ranges)
    decreases |ranges|
  {
    hide ParsePart, Text;
    if ranges != [] {
      var init, last := ranges[..|ranges| - 1], ranges[|ranges| - 1];
      TextsParse(trim, init);
      TextParses(trim, last);
      assert Texts(ranges)[..|ranges| - 1] == Texts(init);
      assert ranges == init + [last];
    } else {
      assert Texts(ranges) == [];
    }
  }

  lemma {:induction false} JoinPlain(parts: seq<Data>)
    requires forall p | p in parts :: Plain(p) && p != []
    ensures Plain(Join(parts)) && (parts != [] ==> Join(parts) != [])
  {
    if |parts| > 1 {
      assert parts[0] in parts;
      JoinPlain(parts[1..]);
    } else if |parts| == 1 {
      assert parts[0] in parts;
    }
  }

  /** Printing ranges, joined by commas, and reading the text names the same ranges. */
  lemma PrintedReadsBack(trim: Data -> Data, ranges: seq<Range>)
    requires Trims(trim) && RangesOk(ranges) && ranges != []
    ensures var text := Join(Texts(ranges));
      trim(text) == text != [] && ParseParts(trim, Split(text)) == Some(ranges)
  {
    hide ParseParts, Text, Split, Join;
    var texts := Texts(ranges);
    forall p | p in texts ensures Plain(p) && p != [] && COMMA !in p {
      var i :| 0 <= i < |texts| && texts[i] == p;
      TextParses(trim, ranges[i]);
    }
    JoinPlain(texts);
    SplitJoin(texts);
    TextsParse(trim, ranges);
  }

  lemma {:induction false} SortSorted(s: seq<Range>)
    requires Sorted(s)
    ensures Sort(s) == s
  {
    if s != [] {
      assert Sorted(s[1..]);
      SortSorted(s[1..]);
      if |s| > 1 {
        assert s[1..][0] == s[1] && Before(s[0], s[1]);
      }
    }
  }

  /** A list in normal form is left as it is by the merging. */
  lemma NormalSorted(ranges: seq<Range>)
    requires Normal(ranges) && RangesOk(ranges)
    ensures OnlyLastIsMax(Sort(ranges))
  {
    forall i, k | 0 <= i < k < |ranges| ensures Before(ranges[i], ranges[k]) {
      assert ranges[i].end + 1 < ranges[k].start;
    }
    SortSorted(ranges);
    forall i | 0 <= i < |ranges| - 1 ensures ranges[i].end < MAX {
      assert ranges[i].end + 1 < ranges[i + 1].start && RangeOk(ranges[i + 1]);
    }
  }

  /** The missing numbers, once and in order: all of them, or the limit of them. */
  ghost predicate Listed(start: int, end: int, present: map<int, bool>, numbers: seq<int>)
  {
    && Strict(numbers) && |numbers| <= 10000 && (forall n | n in numbers :: IsMissing(start, end, present, n))
    && (|numbers| < 10000 ==> forall n | IsMissing(start, end, present, n) :: n in numbers)
  }

  const LIMIT := 10000

  /** At least as many numbers are missing as the limit. */
  ghost predicate Plenty(start: int, end: int, present: map<int, bool>)
  {
    exists s: seq<int> :: |s| == LIMIT && Strict(s) && forall n | n in s :: IsMissing(start, end, present, n)
  }

  /** The high side reports what is missing, the operator hands the report to the low side, which
      exports those bundles again: exactly the missing numbers are named, and they are listed once,
      in order, up to the limit of 10000. The listing goes wrong only if the greatest int64 is itself
      missing and fewer numbers are than the limit. */
  method Reexport(trim: Data -> Data, start: int, end: int, present: map<int, bool>)
    returns (ranges: Option<seq<Range>>, numbers: seq<int>)
    requires Trims(trim) && 1 <= start && end <= MAX
    ensures ranges.None? <==> forall n :: !IsMissing(start, end, present, n)
    ensures ranges.Some? ==> Normal(ranges.value) && forall n :: In(ranges.value, n) <==> IsMissing(start, end, present, n)
    ensures Listed(start, end, present, numbers) <==> !IsMissing(start, end, present, MAX) || Plenty(start, end, present)
  {
    hide Join, Texts, Split, ParseParts, Listing, Normal, Sort, OnlyLastIsMax, NoneRunsOver, Take, In, RangesOk, Listed, Plenty;
    var report := Missing(start, end, present);
    ReportOk(report, start, end);
    var text := Join(Texts(report));
    ranges := ParseSpec(trim, text);
    if report == [] {
      EmptyText(trim, report);
      NothingIn(report);
      NothingListed(start, end, present);
      return ranges, [];
    }
    PrintedReadsBack(trim, report);
    NormalSorted(report);
    NormalUnique(ranges.value, report);
    FirstIn(report);
    assert IsMissing(start, end, present, report[0].start);
    numbers := Expand(report, LIMIT);
    Expanded(start, end, present, report, numbers);
    RunsOverIff(start, end, present, report);
  }

  lemma NothingListed(start: int, end: int, present: map<int, bool>)
    requires forall n :: !IsMissing(start, end, present, n)
    ensures Listed(start, end, present, [])
  {
  }

  predicate IsMissing(start: int, end: int, present: map<int, bool>, n: int)
  {
    start <= n <= end && !(n in present && present[n])
  }

  lemma NothingIn(report: seq<Range>)
    requires report == []
    ensures forall n :: !In(report, n)
  {
  }

  lemma FirstIn(report: seq<Range>)
    requires report != [] && RangesOk(report)
    ensures In(report, report[0].start)
  {
  }

  lemma Expanded(start: int, end: int, present: map<int, bool>, report: seq<Range>, numbers: seq<int>)
    requires Normal(report) && RangesOk(report) && 1 <= start && forall n :: In(report, n) <==> IsMissing(start, end, present, n)
    requires numbers == Take(Listing(report), LIMIT) <==> NoneRunsOver(report, LIMIT)
    requires !NoneRunsOver(report, LIMIT) ==> exists k :: 0 <= k < |numbers| && numbers[k] < 0
    ensures Listed(start, end, present, numbers) <==> NoneRunsOver(report, LIMIT)
  {
    hide NoneRunsOver, Listing;
    ListingStrict(report);
    if NoneRunsOver(report, LIMIT) {
      ListingIn(report);
    } else {
      var k :| 0 <= k < |numbers| && numbers[k] < 0;
      assert numbers[k] in numbers && !IsMissing(start, end, present, numbers[k]);
    }
  }

  lemma ListingIn(report: seq<Range>)
    requires RangesOk(report)
    ensures forall n | n in Listing(report) :: In(report, n)
    ensures forall n | In(report, n) :: n in Listing(report)
  {
  }

  /** The expansion runs over exactly if the greatest int64 is missing and fewer numbers than the limit are. */
  lemma RunsOverIff(start: int, end: int, present: map<int, bool>, report: seq<Range>)
    requires Normal(report) && RangesOk(report) && report != [] && forall n :: In(report, n) <==> IsMissing(start, end, present, n)
    ensures NoneRunsOver(report, LIMIT) <==> !IsMissing(start, end, present, MAX) || Plenty(start, end, present)
  {
    hide Listing, In, IsMissing;
    ListingStrict(report);
    ListingIn(report);
    LastIsMax(report);
    var all := Listing(report);
    if |all| >= LIMIT {
      assert all[..LIMIT] <= all;
      forall n | n in all[..LIMIT] ensures IsMissing(start, end, present, n) {
        assert n in all;
      }
      assert Plenty(start, end, present);
    }
    if Plenty(start, end, present) {
      var s: seq<int> :| |s| == LIMIT && Strict(s) && forall n | n in s :: IsMissing(start, end, present, n);
      forall n | n in s ensures n in all {
        assert In(report, n);
      }
      StrictWithin(s, all);
    }
  }

  lemma LastIsMax(report: seq<Range>)
    requires Normal(report) && RangesOk(report) && report != []
    ensures NoneRunsOver(report, LIMIT) <==> !In(report, MAX) || LIMIT <= |Listing(report)|
  {
    hide Listing;
    var n := |report| - 1;
    assert report[..n + 1] == report;
    forall i | 0 <= i < n ensures report[i].end < MAX {
      assert report[i].end + 1 < report[n].start && RangeOk(report[n]);
    }
    assert RangeOk(report[n]);
    assert In(report, MAX) <==> report[n].end == MAX;
  }

  /** An ascending list within another is no longer. */
  lemma StrictWithin(s: seq<int>, t: seq<int>)
    requires Strict(s) && forall n | n in s :: n in t
    ensures |s| <= |t|
  {
    StrictSize(s);
    ElementsAtMost(t);
    assert Elements(t) == Elements(s) + (Elements(t) - Elements(s));
  }

  ghost function Elements(s: seq<int>): (e: set<int>)
    ensures forall n :: n in e <==> n in s
  {
    if s == [] then {}
    else
      assert s == s[..|s| - 1] + [s[|s| - 1]];
      Elements(s[..|s| - 1]) + {s[|s| - 1]}
  }

  lemma {:induction false} StrictSize(s: seq<int>)
    requires Strict(s)
    ensures |Elements(s)| == |s|
  {
    if s != [] {
      StrictSize(s[..|s| - 1]);
    }
  }

  lemma {:induction false} ElementsAtMost(s: seq<int>)
    ensures |Elements(s)| <= |s|
  {
    if s != [] {
      ElementsAtMost(s[..|s| - 1]);
    }
  }

  predicate Strict(s: seq<int>) { forall i, k | 0 <= i < k < |s| :: s[i] < s[k] }

  lemma ReportOk(report: seq<Range>, start: int, end: int)
    requires Normal(report) && 1 <= start && end <= MAX && forall n :: In(report, n) ==> start <= n <= end
    ensures RangesOk(report)
  {
    forall i | 0 <= i < |report| ensures RangeOk(report[i]) {
      assert In(report, report[i].start) && In(report, report[i].end);
    }
  }

  lemma EmptyText(trim: Data -> Data, report: seq<Range>)
    requires Trims(trim) && report == []
    ensures trim(Join(Texts(report))) == []
  {
    assert Texts(report) == [];
    assert Join(Texts(report)) == [];
  }

  lemma {:induction false} ListingStrict(ranges: seq<Range>)
    requires Normal(ranges)
    ensures Strict(Listing(ranges))
    decreases |ranges|
  {
    if ranges != [] {
      var init, last := ranges[..|ranges| - 1], ranges[|ranges| - 1];
      ListingStrict(init);
      forall n | n in Listing(init) ensures n < last.start {
        var i :| 0 <= i < |init| && init[i].start <= n <= init[i].end;
        assert ranges[i].end + 1 < ranges[|ranges| - 1].start;
      }
      var s := Listing(ranges);
      assert s == Listing(init) + Numbers(last);
      forall i, k | 0 <= i < k < |s| ensures s[i] < s[k] {
        if i < |Listing(init)| <= k {
          assert s[i] == Listing(init)[i] && Listing(init)[i] in Listing(init);
        }
      }
    }
  }
}
