/** Splitting what an export delivers into bundles within the transport's limit. */
module Splitting {
  import opened Bytes

  /** A file of a bundle: packed with it, or a reference to one an earlier bundle delivered. */
  datatype File = File(path: string, sha: string, size: nat, prior: bool)

  datatype Id = Id(path: string, sha: string)

  function IdOf(f: File): Id { Id(f.path, f.sha) }

  const BASE := 4096
  const PER_FILE := 2048

  /** estimatedPackedBytes. */
  function Estimated(size: nat): nat { size + size / 128 + PER_FILE }

  /** The estimate is the size, an allowance of a 128th of it, rounded down, for what compression may add to
      incompressible content, and 2048 bytes for a header and padding. */
  lemma EstimateIs(size: nat)
    ensures 128 * (Estimated(size) - size - 2048) <= size < 128 * (Estimated(size) - size - 2047)
    ensures BASE == 4096
  {
  }

  function Sum(files: seq<File>, idx: seq<nat>): nat
    requires Within(files, idx)
  {
    if idx == [] then 0 else Sum(files, idx[..|idx| - 1]) + Estimated(files[idx[|idx| - 1]].size)
  }

  /** The estimated size of a bundle's archive. */
  function Packed(files: seq<File>): nat
  {
    if files == [] then BASE
    else
      var f := files[|files| - 1];
      Packed(files[..|files| - 1]) + (if f.prior then 0 else Estimated(f.size))
  }

  ghost predicate NoRepeats(idx: seq<nat>) { forall i, j | 0 <= i < j < |idx| :: idx[i] != idx[j] }

  /** The positions of the files to deliver, in some order. */
  ghost predicate Delivering(files: seq<File>, idx: seq<nat>)
  {
    NoRepeats(idx) && Within(files, idx) && forall i: nat :: i in idx <==> i < |files| && !files[i].prior
  }

  function ToDeliver(files: seq<File>): seq<nat>
  {
    if files == [] then []
    else ToDeliver(files[..|files| - 1]) + (if files[|files| - 1].prior then [] else [|files| - 1])
  }

  lemma ToDeliverIs(files: seq<File>)
    ensures Delivering(files, ToDeliver(files)) && Packed(files) == BASE + Sum(files, ToDeliver(files))
  {
    InOrder(files);
    PackedSum(files);
    forall i, j | 0 <= i < j < |ToDeliver(files)| ensures ToDeliver(files)[i] != ToDeliver(files)[j] {
      assert ToDeliver(files)[i] < ToDeliver(files)[j];
    }
  }

  lemma {:induction false} InOrder(files: seq<File>)
    ensures Within(files, ToDeliver(files))
    ensures forall i, j | 0 <= i < j < |ToDeliver(files)| :: ToDeliver(files)[i] < ToDeliver(files)[j]
    ensures forall i: nat :: i in ToDeliver(files) <==> i < |files| && !files[i].prior
  {
    if files != [] {
      var init, n := files[..|files| - 1], |files| - 1;
      InOrder(init);
      var before, now := ToDeliver(init), ToDeliver(files);
      assert now == before + (if files[n].prior then [] else [n]);
      hide ToDeliver;
      assert forall i: nat :: i in now <==> i in before || (i == n && !files[n].prior);
    }
  }

  lemma {:induction false} PackedSum(files: seq<File>)
    ensures Within(files, ToDeliver(files)) && Packed(files) == BASE + Sum(files, ToDeliver(files))
  {
    InOrder(files);
    if files != [] {
      hide Estimated;
      var init, n := files[..|files| - 1], |files| - 1;
      InOrder(init);
      PackedSum(init);
      SumOfInit(init, files, ToDeliver(init));
      if !files[n].prior {
        SumMore(files, ToDeliver(init), n);
      } else {
        assert ToDeliver(files) == ToDeliver(init);
      }
    }
  }

  lemma {:induction false} SumOfInit(init: seq<File>, files: seq<File>, idx: seq<nat>)
    requires init <= files && Within(init, idx)
    ensures Within(files, idx) && Sum(init, idx) == Sum(files, idx)
  {
    if idx != [] {
      SumOfInit(init, files, idx[..|idx| - 1]);
    }
  }

  lemma {:induction false} SumWithout(files: seq<File>, idx: seq<nat>, k: nat)
    requires k < |idx| && Within(files, idx)
    ensures Within(files, idx[..k] + idx[k + 1..])
    ensures Sum(files, idx) == Sum(files, idx[..k] + idx[k + 1..]) + Estimated(files[idx[k]].size)
  {
    var n := |idx| - 1;
    if k < n {
      SumWithout(files, idx[..n], k);
      var rest := idx[..k] + idx[k + 1..];
      assert idx[..n][..k] + idx[..n][k + 1..] == rest[..n - 1] && rest[n - 1] == idx[n];
    } else {
      assert idx[..k] + idx[k + 1..] == idx[..n];
    }
  }

  /** Order does not matter to a sum. */
  lemma {:induction false} SumSame(files: seq<File>, a: seq<nat>, b: seq<nat>)
    requires NoRepeats(a) && NoRepeats(b) && (forall i: nat :: i in a <==> i in b) && Within(files, a) && Within(files, b)
    ensures Sum(files, a) == Sum(files, b)
    decreases |a|
  {
    if a == [] {
      assert b == [] by { SomeIn(b); }
    } else {
      var n := |a| - 1;
      assert a[n] in a;
      var k :| 0 <= k < |b| && b[k] == a[n];
      var rest := b[..k] + b[k + 1..];
      SumWithout(files, b, k);
      SameRest(a, b, k);
      SumSame(files, a[..n], rest);
    }
  }

  lemma SomeIn(b: seq<nat>)
    ensures b != [] ==> exists i :: i in b
  {
    if b != [] {
      assert b[0] in b;
    }
  }

  lemma SameRest(a: seq<nat>, b: seq<nat>, k: nat)
    requires NoRepeats(a) && NoRepeats(b) && (forall i: nat :: i in a <==> i in b) && a != [] && k < |b| && b[k] == a[|a| - 1]
    ensures var rest := b[..k] + b[k + 1..];
      NoRepeats(rest) && forall i: nat :: i in a[..|a| - 1] <==> i in rest
  {
    var n, rest := |a| - 1, b[..k] + b[k + 1..];
    forall i: nat ensures i in a[..n] <==> i in rest {
      if i in a[..n] {
        var l :| 0 <= l < n && a[..n][l] == i;
        assert a[l] == i && i in a;
        var j :| 0 <= j < |b| && b[j] == i;
        assert rest[if j < k then j else j - 1] == i;
      }
      if i in rest {
        var j :| 0 <= j < |rest| && rest[j] == i;
        assert b[if j < k then j else j + 1] == i && i in b;
        var l :| 0 <= l < |a| && a[l] == i;
        assert a[..n][l] == i;
      }
    }
  }

  function Flat(chunks: seq<seq<nat>>): seq<nat>
  {
    if chunks == [] then [] else Flat(chunks[..|chunks| - 1]) + chunks[|chunks| - 1]
  }

  ghost predicate Fits(files: seq<File>, chunk: seq<nat>, budget: nat)
  {
    chunk != [] && Within(files, chunk) && BASE + Sum(files, chunk) <= budget
  }

  /** Chunks of what is to be delivered, each within the budget, and none that could take the next file. */
  ghost predicate IsSplit(files: seq<File>, budget: nat, chunks: seq<seq<nat>>)
  {
    && Delivering(files, Flat(chunks))
    && (forall k | 0 <= k < |chunks| :: Fits(files, chunks[k], budget))
    && (forall k | 0 < k < |chunks| :: Full(files, budget, chunks[k - 1], chunks[k]))
  }

  ghost predicate Fitting(files: seq<File>, budget: nat)
  {
    forall i: nat | i < |files| && !files[i].prior :: SmallEnough(files, i, budget)
  }

  predicate SmallEnough(files: seq<File>, i: nat, budget: nat)
  {
    i < |files| ==> BASE + Estimated(files[i].size) <= budget
  }

  predicate Within(files: seq<File>, idx: seq<nat>) { forall k | 0 <= k < |idx| :: idx[k] < |files| }

  /** No chunk so far could take the first file of the next. */
  ghost predicate Greedy(files: seq<File>, budget: nat, done: seq<seq<nat>>, cur: seq<nat>)
  {
    && (forall k | 0 <= k < |done| :: Fits(files, done[k], budget))
    && (forall k | 0 < k < |done| :: Full(files, budget, done[k - 1], done[k]))
    && (done != [] && cur != [] && Within(files, cur) ==> Full(files, budget, done[|done| - 1], cur))
  }

  ghost predicate Full(files: seq<File>, budget: nat, chunk: seq<nat>, next: seq<nat>)
  {
    && Within(files, chunk) && Within(files, next) && next != []
    && next[0] < |files| && BASE + Sum(files, chunk) + Estimated(files[next[0]].size) > budget
  }

  lemma GreedyNext(files: seq<File>, budget: nat, done: seq<seq<nat>>, cur: seq<nat>, i: nat)
    requires Greedy(files, budget, done, cur) && Within(files, cur) && cur != [] && Fits(files, cur, budget)
    requires Full(files, budget, cur, [i])
    ensures Greedy(files, budget, done + [cur], [i])
  {
    hide Full, Fits, Within;
    var more := done + [cur];
    forall k | 0 < k < |more| ensures Full(files, budget, more[k - 1], more[k]) {
      assert more[k - 1] == done[k - 1];
    }
  }

  lemma FullBy(files: seq<File>, budget: nat, chunk: seq<nat>, i: nat)
    requires Within(files, chunk) && i < |files| && BASE + Sum(files, chunk) + Estimated(files[i].size) > budget
    ensures Full(files, budget, chunk, [i])
  {
    hide Sum, Estimated;
  }

  lemma GreedyMore(files: seq<File>, budget: nat, done: seq<seq<nat>>, cur: seq<nat>, i: nat)
    requires Greedy(files, budget, done, cur) && Within(files, cur) && i < |files| && (cur == [] ==> done == [])
    ensures Greedy(files, budget, done, cur + [i])
  {
    hide Sum, Estimated;
    assert cur != [] ==> (cur + [i])[0] == cur[0];
  }

  lemma SumMore(files: seq<File>, cur: seq<nat>, i: nat)
    requires Within(files, cur) && i < |files|
    ensures Within(files, cur + [i]) && Sum(files, cur + [i]) == Sum(files, cur) + Estimated(files[i].size)
  {
    assert (cur + [i])[..|cur|] == cur;
  }

  lemma FlatMore(chunks: seq<seq<nat>>, chunk: seq<nat>)
    ensures Flat(chunks + [chunk]) == Flat(chunks) + chunk
  {
    assert (chunks + [chunk])[..|chunks|] == chunks;
  }

  lemma GreedyDone(files: seq<File>, budget: nat, done: seq<seq<nat>>, cur: seq<nat>)
    requires Greedy(files, budget, done, cur) && (cur != [] ==> Fits(files, cur, budget))
    ensures Greedy(files, budget, if cur == [] then done else done + [cur], [])
  {
    hide Sum, Estimated;
  }

  /** The state of the splitting loop after n of the files. */
  ghost predicate Halfway(files: seq<File>, budget: nat, idx: seq<nat>, n: nat, done: seq<seq<nat>>, cur: seq<nat>, used: nat)
    requires n <= |idx|
  {
    && Within(files, cur) && Flat(done) + cur == idx[..n] && used == BASE + Sum(files, cur)
    && (if n == 0 then cur == [] && done == [] else Fits(files, cur, budget))
    && Greedy(files, budget, done, cur)
    && forall j | 0 <= j < n :: SmallEnough(files, idx[j], budget)
  }

  lemma HalfwayClosed(files: seq<File>, budget: nat, idx: seq<nat>, n: nat, done: seq<seq<nat>>, cur: seq<nat>, used: nat)
    requires n < |idx| && Halfway(files, budget, idx, n, done, cur, used) && idx[n] < |files| && cur != []
    requires var cost := Estimated(files[idx[n]].size);
      BASE + cost <= budget && used + cost > budget
    ensures Halfway(files, budget, idx, n + 1, done + [cur], [idx[n]], BASE + Estimated(files[idx[n]].size))
  {
    hide Sum, Estimated, Greedy, Flat;
    TakeMore(idx, n, Flat(done), cur);
    SumMore0(files);
    SumMore(files, [], idx[n]);
    assert [] + [idx[n]] == [idx[n]];
    FullBy(files, budget, cur, idx[n]);
    GreedyNext(files, budget, done, cur, idx[n]);
    FlatMore(done, cur);
  }

  lemma HalfwayGrown(files: seq<File>, budget: nat, idx: seq<nat>, n: nat, done: seq<seq<nat>>, cur: seq<nat>, used: nat)
    requires n < |idx| && Halfway(files, budget, idx, n, done, cur, used) && idx[n] < |files|
    requires var cost := Estimated(files[idx[n]].size);
      BASE + cost <= budget && (cur == [] || used + cost <= budget)
    ensures Halfway(files, budget, idx, n + 1, done, cur + [idx[n]], used + Estimated(files[idx[n]].size))
  {
    hide Sum, Estimated, Greedy, Flat;
    TakeMore(idx, n, Flat(done), cur);
    SumMore0(files);
    SumMore(files, cur, idx[n]);
    GreedyMore(files, budget, done, cur, idx[n]);
  }

  lemma HalfwayDone(files: seq<File>, budget: nat, idx: seq<nat>, done: seq<seq<nat>>, cur: seq<nat>, used: nat)
    requires Delivering(files, idx) && Halfway(files, budget, idx, |idx|, done, cur, used)
    ensures Fitting(files, budget) && IsSplit(files, budget, if cur == [] then done else done + [cur])
  {
    hide Sum, Estimated, Greedy, Flat, IsSplit, Delivering, Fitting;
    assert idx[..|idx|] == idx;
    GreedyDone(files, budget, done, cur);
    if cur != [] {
      FlatMore(done, cur);
    }
    assert Flat(if cur == [] then done else done + [cur]) == idx;
    AllFit(files, budget, idx);
    SplitDone(files, budget, if cur == [] then done else done + [cur]);
  }

  /** splitDeliveredFiles: the files in some order, as many a chunk as fit. */
  method Split(files: seq<File>, budget: nat) returns (chunks: Option<seq<seq<nat>>>)
    ensures chunks.Some? <==> Fitting(files, budget)
    ensures chunks.Some? ==> IsSplit(files, budget, chunks.value)
  {
    hide Estimated, Halfway, IsSplit, Delivering, Fitting, ToDeliver;
    var idx: seq<nat> :| multiset(idx) == multiset(ToDeliver(files));
    AnyOrder(files, idx);
    var done: seq<seq<nat>>, cur: seq<nat> := [], [];
    var used: nat := BASE;
    Begin(files, budget, idx);
    for n := 0 to |idx|
      invariant Halfway(files, budget, idx, n, done, cur, used)
    {
      MustFit(files, idx, n, budget);
      var cost := Estimated(files[idx[n]].size);
      if BASE + cost > budget {
        return None;
      }
      if cur != [] && used + cost > budget {
        HalfwayClosed(files, budget, idx, n, done, cur, used);
        done, cur, used := done + [cur], [idx[n]], BASE + cost;
      } else {
        HalfwayGrown(files, budget, idx, n, done, cur, used);
        cur, used := cur + [idx[n]], used + cost;
      }
    }
    HalfwayDone(files, budget, idx, done, cur, used);
    chunks := Some(if cur == [] then done else done + [cur]);
  }

  lemma MustFit(files: seq<File>, idx: seq<nat>, n: nat, budget: nat)
    requires Delivering(files, idx) && n < |idx|
    ensures idx[n] < |files| && (Fitting(files, budget) ==> BASE + Estimated(files[idx[n]].size) <= budget)
  {
    assert idx[n] in idx;
    assert Fitting(files, budget) ==> SmallEnough(files, idx[n], budget);
  }

  lemma TakeMore(idx: seq<nat>, n: nat, flat: seq<nat>, cur: seq<nat>)
    requires n < |idx| && flat + cur == idx[..n]
    ensures flat + (cur + [idx[n]]) == idx[..n + 1] && (flat + cur) + [idx[n]] == idx[..n + 1]
  {
  }

  lemma SplitDone(files: seq<File>, budget: nat, chunks: seq<seq<nat>>)
    requires Greedy(files, budget, chunks, []) && Delivering(files, Flat(chunks))
    ensures IsSplit(files, budget, chunks)
  {
    hide Full, Fits;
  }

  lemma AnyOrder(files: seq<File>, idx: seq<nat>)
    requires multiset(idx) == multiset(ToDeliver(files))
    ensures Delivering(files, idx)
  {
    var a := ToDeliver(files);
    ToDeliverIs(files);
    SameElements(a, idx);
    forall i, j | 0 <= i < j < |idx| ensures idx[i] != idx[j] {
      if idx[i] == idx[j] {
        Twice(idx, i, j);
        Once(a, idx[i]);
      }
    }
    forall k | 0 <= k < |idx| ensures idx[k] < |files| {
      assert idx[k] in a;
    }
  }

  lemma SameElements(a: seq<nat>, b: seq<nat>)
    requires multiset(a) == multiset(b)
    ensures forall i: nat :: i in a <==> i in b
  {
    forall i: nat ensures i in a <==> i in b {
      assert i in multiset(a) <==> i in multiset(b);
    }
  }

  lemma Twice(s: seq<nat>, i: nat, k: nat)
    requires i < k < |s| && s[i] == s[k]
    ensures multiset(s)[s[i]] >= 2
  {
    assert s == s[..k] + [s[k]] + s[k + 1..];
    assert s[..k] == s[..i] + [s[i]] + s[i + 1..k];
  }

  lemma Once(s: seq<nat>, x: nat)
    requires NoRepeats(s)
    ensures multiset(s)[x] <= 1
  {
    if n :| 0 <= n < |s| && s[n] == x {
      assert s == s[..n] + [s[n]] + s[n + 1..];
      assert x !in s[..n] && x !in s[n + 1..];
    }
  }

  lemma Begin(files: seq<File>, budget: nat, idx: seq<nat>)
    ensures Halfway(files, budget, idx, 0, [], [], BASE)
  {
    assert idx[..0] == [];
  }

  lemma SumMore0(files: seq<File>)
    ensures Sum(files, []) == 0
  {
  }

  lemma AllFit(files: seq<File>, budget: nat, idx: seq<nat>)
    requires Delivering(files, idx)
    requires forall j | 0 <= j < |idx| :: SmallEnough(files, idx[j], budget)
    ensures Fitting(files, budget)
  {
    hide Estimated;
    forall i: nat | i < |files| && !files[i].prior ensures SmallEnough(files, i, budget) {
      assert i in idx;
    }
  }

  function Marked(files: seq<File>, idx: seq<nat>): seq<File>
  {
    seq(|files|, i requires 0 <= i < |files| => if i in idx then files[i].(prior := true) else files[i])
  }

  function Part(files: seq<File>, chunk: seq<nat>): seq<File>
    requires Within(files, chunk)
  {
    seq(|chunk|, i requires 0 <= i < |chunk| => files[chunk[i]])
  }

  lemma {:induction false} InFlat(chunks: seq<seq<nat>>, k: nat, x: nat)
    requires k < |chunks| && x in chunks[k]
    ensures x in Flat(chunks)
  {
    var n := |chunks| - 1;
    if k < n {
      assert chunks[..n][k] == chunks[k];
      InFlat(chunks[..n], k, x);
    }
  }

  lemma {:induction false} ChunkApart(chunks: seq<seq<nat>>, k: nat)
    requires k < |chunks| && NoRepeats(Flat(chunks))
    ensures NoRepeats(chunks[k]) && NoRepeats(Flat(chunks[..k]) + chunks[k])
    decreases |chunks|
  {
    var n := |chunks| - 1;
    var before := Flat(chunks[..n]);
    assert Flat(chunks) == before + chunks[n];
    assert NoRepeats(before) by {
      assert forall i | 0 <= i < |before| :: before[i] == Flat(chunks)[i];
    }
    if k < n {
      assert chunks[..n][k] == chunks[k] && chunks[..n][..k] == chunks[..k];
      ChunkApart(chunks[..n], k);
    } else {
      assert forall i | 0 <= i < |chunks[n]| :: chunks[n][i] == Flat(chunks)[|before| + i];
    }
  }

  lemma {:induction false} PartPacked(files: seq<File>, chunk: seq<nat>)
    requires Within(files, chunk) && forall i | 0 <= i < |chunk| :: !files[chunk[i]].prior
    ensures Packed(Part(files, chunk)) == BASE + Sum(files, chunk)
  {
    if chunk != [] {
      var n := |chunk| - 1;
      assert Part(files, chunk)[..n] == Part(files, chunk[..n]);
      PartPacked(files, chunk[..n]);
    }
  }

  /** Once all chunks but the last are marked, what is left to deliver is the last. */
  lemma LastChunk(files: seq<File>, budget: nat, chunks: seq<seq<nat>>, now: seq<File>)
    requires IsSplit(files, budget, chunks) && chunks != []
    requires now == Marked(files, Flat(chunks[..|chunks| - 1]))
    ensures Packed(now) <= budget
  {
    var n := |chunks| - 1;
    var last, before := chunks[n], Flat(chunks[..n]);
    assert Fits(files, last, budget) && Flat(chunks) == before + last;
    ChunkApart(chunks, n);
    assert Delivering(now, last) by {
      forall i: nat ensures i in last <==> i < |now| && !now[i].prior {
        assert i in Flat(chunks) <==> i in before || i in last;
        if i in before {
          NotBoth(before, last, i);
        }
      }
    }
    ToDeliverIs(now);
    SumSame(now, last, ToDeliver(now));
    SumSizes(files, now, last);
  }

  lemma NotBoth(a: seq<nat>, b: seq<nat>, i: nat)
    requires NoRepeats(a + b) && i in a
    ensures i !in b
  {
    var j :| 0 <= j < |a| && a[j] == i;
    forall k | 0 <= k < |b| ensures b[k] != i {
      assert (a + b)[j] == i && (a + b)[|a| + k] == b[k];
    }
  }

  lemma {:induction false} SumSizes(files: seq<File>, now: seq<File>, idx: seq<nat>)
    requires Within(files, idx) && |now| == |files| && forall i | 0 <= i < |files| :: now[i].size == files[i].size
    ensures Within(now, idx) && Sum(now, idx) == Sum(files, idx)
  {
    if idx != [] {
      SumSizes(files, now, idx[..|idx| - 1]);
    }
  }

  ghost predicate SameIds(files: seq<File>, now: seq<File>)
  {
    |now| == |files| && forall i | 0 <= i < |files| :: IdOf(now[i]) == IdOf(files[i])
  }

  lemma MarkNothing(files: seq<File>)
    ensures Marked(files, Flat([])) == files
  {
  }

  lemma WithinBudget(files: seq<File>, budget: nat, chunks: seq<seq<nat>>, now: seq<File>)
    requires IsSplit(files, budget, chunks)
    requires now == if |chunks| >= 2 then Marked(files, Flat(chunks[..|chunks| - 1])) else files
    ensures Packed(now) <= budget || Packed(now) == BASE
    ensures SameIds(files, now)
  {
    hide Packed;
    if chunks == [] {
      ToDeliverIs(files);
      SomeIn(ToDeliver(files));
      assert Packed(files) == BASE + Sum(files, []);
      SumMore0(files);
    } else {
      if |chunks| == 1 {
        MarkNothing(files);
        assert chunks[..0] == [];
      }
      LastChunk(files, budget, chunks, now);
    }
  }
}
