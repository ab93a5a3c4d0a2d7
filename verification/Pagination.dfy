/** Registry listings page by page: tags and referrers (OCI Distribution Specification, "Listing Tags"
    and "Listing Referrers"). */
module Pagination {
  import opened Bytes
  import opened Lexical

  /** An order of keys and the keys listed in it. */
  type Comparison = (Data, Data) -> int

  /** A strict total order in which every key comes after the empty cursor. */
  ghost predicate Total(cmp: Comparison)
  {
    && (forall a, b :: (cmp(a, b) > 0 <==> cmp(b, a) < 0) && (cmp(a, b) == 0 <==> a == b))
    && (forall a, b, c :: cmp(a, b) <= 0 && cmp(b, c) <= 0 ==> cmp(a, c) <= 0)
    && (forall a :: a != [] ==> cmp(a, []) > 0)
  }

  /** compareContainerTags: without regard to case, then bytewise. */
  function CompareTags(lower: Data -> Data, a: Data, b: Data): int
  {
    if Text(lower(a), lower(b)) != 0 then Text(lower(a), lower(b)) else Text(a, b)
  }

  function TagOrder(lower: Data -> Data): Comparison { (a, b) => CompareTags(lower, a, b) }

  /** The order of tags is a strict total order, whatever lower-casing identifies. */
  lemma TagsOrdered(lower: Data -> Data)
    requires lower([]) == []
    ensures Total(TagOrder(lower))
  {
    hide Text;
    var cmp := TagOrder(lower);
    forall a, b ensures (cmp(a, b) > 0 <==> cmp(b, a) < 0) && (cmp(a, b) == 0 <==> a == b) {
      TextFlips(a, b);
      TextFlips(lower(a), lower(b));
    }
    forall a, b, c | cmp(a, b) <= 0 && cmp(b, c) <= 0 ensures cmp(a, c) <= 0 {
      TextChains(lower(a), lower(b), lower(c));
      if Text(lower(a), lower(c)) == 0 {
        TextChains(a, b, c);
      }
    }
    forall a: Data | a != [] ensures cmp(a, []) > 0 {
      AfterEmpty(a);
      AfterEmpty(lower(a));
    }
  }

  lemma AfterEmpty(a: Data)
    ensures Text(a, []) == if a == [] then 0 else 1
  {
  }

  lemma DigestsOrdered()
    ensures Total(Text)
  {
    hide Text;
    forall a, b ensures (Text(a, b) > 0 <==> Text(b, a) < 0) && (Text(a, b) == 0 <==> a == b) {
      TextFlips(a, b);
    }
    forall a, b, c | Text(a, b) <= 0 && Text(b, c) <= 0 ensures Text(a, c) <= 0 {
      TextChains(a, b, c);
    }
    forall a: Data | a != [] ensures Text(a, []) > 0 {
      AfterEmpty(a);
    }
  }

  ghost predicate Sorted(cmp: Comparison, keys: seq<Data>)
  {
    (forall i, j | 0 <= i < j < |keys| :: cmp(keys[i], keys[j]) < 0) && forall i | 0 <= i < |keys| :: keys[i] != []
  }

  /** Where a listing goes on after a cursor. */
  ghost predicate StartsAt(cmp: Comparison, keys: seq<Data>, last: Data, start: nat)
  {
    start <= |keys| && forall i: nat :: Passed(cmp, keys, last, i) <==> i < start
  }

  predicate Passed(cmp: Comparison, keys: seq<Data>, last: Data, i: nat)
  {
    i < |keys| && cmp(keys[i], last) <= 0
  }

  /** The library's binary search. */
  method Search(cmp: Comparison, keys: seq<Data>, last: Data) returns (start: nat)
    requires Total(cmp) && Sorted(cmp, keys)
    ensures StartsAt(cmp, keys, last, start)
  {
    var hi: nat;
    start, hi := 0, |keys|;
    while start < hi
      invariant start <= hi <= |keys|
      invariant forall i | 0 <= i < start :: cmp(keys[i], last) <= 0
      invariant forall i | hi <= i < |keys| :: cmp(keys[i], last) > 0
    {
      var mid := (start + hi) / 2;
      if cmp(keys[mid], last) > 0 {
        UpFrom(cmp, keys, last, mid);
        hi := mid;
      } else {
        DownFrom(cmp, keys, last, mid);
        start := mid + 1;
      }
    }
  }

  lemma Above(cmp: Comparison, a: Data, b: Data, c: Data)
    requires Total(cmp) && cmp(b, a) > 0 && cmp(b, c) <= 0
    ensures cmp(c, a) > 0
  {
  }

  lemma Below(cmp: Comparison, a: Data, b: Data, c: Data)
    requires Total(cmp) && cmp(a, b) <= 0 && cmp(c, b) > 0
    ensures cmp(a, c) < 0
  {
  }

  lemma UpFrom(cmp: Comparison, keys: seq<Data>, last: Data, mid: nat)
    requires Total(cmp) && Sorted(cmp, keys) && mid < |keys| && cmp(keys[mid], last) > 0
    ensures forall i | mid <= i < |keys| :: cmp(keys[i], last) > 0
  {
    forall i | mid < i < |keys| ensures cmp(keys[i], last) > 0 {
      Above(cmp, last, keys[mid], keys[i]);
    }
  }

  lemma DownFrom(cmp: Comparison, keys: seq<Data>, last: Data, mid: nat)
    requires Total(cmp) && Sorted(cmp, keys) && mid < |keys| && cmp(keys[mid], last) <= 0
    ensures forall i | 0 <= i <= mid :: cmp(keys[i], last) <= 0
  {
    forall i | 0 <= i < mid ensures cmp(keys[i], last) <= 0 {
      assert cmp(keys[i], keys[mid]) < 0;
    }
  }

  // ---- one page ----

  /** A page: its keys and the cursor of the next, empty on the last page. */
  datatype Page = Page(keys: seq<Data>, next: Data)

  /** A page of a listing: consecutive keys from the cursor on, and a cursor exactly if keys are left. */
  ghost predicate IsPage(cmp: Comparison, keys: seq<Data>, last: Data, p: Page)
  {
    exists start: nat :: StartsAt(cmp, keys, last, start) && PageFrom(keys, start, p)
  }

  ghost predicate PageFrom(keys: seq<Data>, start: nat, p: Page)
  {
    var end := start + |p.keys|;
    && end <= |keys| && p.keys == keys[start..end]
    && p.next == (if start < end < |keys| then keys[end - 1] else [])
    && (end < |keys| ==> p.keys != [])
  }

  /** paginateContainerTags. */
  method PaginateTags(lower: Data -> Data, tags: seq<Data>, limit: nat, last: Data) returns (p: Page)
    requires lower([]) == [] && Sorted(TagOrder(lower), tags)
    ensures limit == 0 ==> p == Page([], [])
    ensures limit > 0 ==> IsPage(TagOrder(lower), tags, last, p) && |p.keys| <= limit && (p.next != [] ==> |p.keys| == limit)
  {
    if limit == 0 {
      return Page([], []);
    }
    TagsOrdered(lower);
    var start := Search(TagOrder(lower), tags, last);
    var end := Min(start + limit, |tags|);
    p := Page(tags[start..end], if end < |tags| then tags[end - 1] else []);
    assert PageFrom(tags, start, p);
  }

  const MAX_BODY := 4 * 1024 * 1024

  /** A descriptor and its encoding. */
  datatype Descriptor = Descriptor(digest: Data, encoded: Data)

  function Digests(list: seq<Descriptor>): seq<Data>
  {
    seq(|list|, i requires 0 <= i < |list| => list[i].digest)
  }

  /** The descriptors with commas between them. */
  function Joined(list: seq<Descriptor>): Data
  {
    if list == [] then []
    else if |list| == 1 then list[0].encoded
    else Joined(list[..|list| - 1]) + [0x2c] + list[|list| - 1].encoded
  }

  /** A body of a page of referrers. */
  function BodyOf(prefix: Data, list: seq<Descriptor>): Data { prefix + Joined(list) + [0x5d, 0x7d] }

  predicate FitsAlone(prefix: Data, d: Descriptor) { |prefix| + |d.encoded| + 2 <= 4_194_304 }

  /** The next descriptor does not fit a page by itself. */
  ghost predicate Stuck(prefix: Data, list: seq<Descriptor>, last: Data)
  {
    exists i: nat :: i < |list| && StartsAt(Text, Digests(list), last, i) && !FitsAlone(prefix, list[i])
  }

  lemma StuckIff(prefix: Data, list: seq<Descriptor>, last: Data, start: nat)
    requires StartsAt(Text, Digests(list), last, start)
    ensures Stuck(prefix, list, last) <==> start < |list| && !FitsAlone(prefix, list[start])
  {
    hide StartsAt, FitsAlone;
    StartUnique(Text, Digests(list), last, start);
  }

  /** A body with the given descriptors, within the limit. */
  ghost predicate IsBody(prefix: Data, list: seq<Descriptor>, body: Data)
  {
    body == prefix + Joined(list) && |body| + 2 <= MAX_BODY
  }

  /** paginateContainerReferrers: as many descriptors as the limit and the size of a body allow, at least
      one if any is left; an error exactly if that one does not fit by itself. */
  method PaginateReferrers(prefix: Data, list: seq<Descriptor>, limit: nat, last: Data) returns (p: Option<Page>, body: Data)
    requires Sorted(Text, Digests(list)) && |prefix| + 2 <= MAX_BODY
    ensures p.None? <==> limit > 0 && Stuck(prefix, list, last)
    ensures p.Some? && limit == 0 ==> p.value == Page([], [])
    ensures p.Some? && limit > 0 ==> IsPage(Text, Digests(list), last, p.value) && |p.value.keys| <= limit
    ensures p.Some? ==> |body| <= 4_194_304 && Encodes(prefix, list, p.value.keys, body)
    ensures p.Some? && p.value.next != [] && |p.value.keys| < limit ==> Cut(list, last, |p.value.keys|, |body|)
  {
    hide Cut, Text, Total, Sorted, StartsAt, Joined, IsPage, Stuck, IsBody, Encodes, FitsAlone, Digests;
    DigestsOrdered();
    DigestsLength(list);
    body := prefix;
    var start := Search(Text, Digests(list), last);
    StartWithin(Text, Digests(list), last, start);
    StuckIff(prefix, list, last, start);
    var end := Min(start + limit, |list|);
    var position := start;
    NoBody(prefix, list, start);
    while position < end
      invariant start <= position <= end && IsBody(prefix, list[start..position], body)
      invariant position > start ==> FitsAlone(prefix, list[start])
    {
      IsCut(list, last, start, position - start, |body| + 2);
      var encoded := list[position].encoded;
      var separator := if position > start then 1 else 0;
      BodyMore(prefix, list, start, position, body);
      if |body| + separator + |encoded| + 2 > MAX_BODY {
        if position == start {
          return None, [];
        }
        break;
      }
      if separator != 0 {
        body := body + [0x2c];
      }
      body := body + encoded;
      position := position + 1;
    }
    PageDone(prefix, list, last, start, position, body);
    body := body + [0x5d, 0x7d];
    var digests := Digests(list[start..position]);
    DigestsLength(list[start..position]);
    p := Some(Page(digests, if limit != 0 && position < |list| then list[position - 1].digest else []));
  }

  /** The descriptor after n of a page does not fit its body any more. */
  ghost predicate Cut(list: seq<Descriptor>, last: Data, n: nat, size: nat)
  {
    exists start: nat :: StartsAt(Text, Digests(list), last, start) && start + n < |list| && size + 1 + |list[start + n].encoded| > MAX_BODY
  }

  lemma IsCut(list: seq<Descriptor>, last: Data, start: nat, n: nat, size: nat)
    requires StartsAt(Text, Digests(list), last, start) && start + n < |list|
    ensures size + 1 + |list[start + n].encoded| > MAX_BODY ==> Cut(list, last, n, size)
  {
    hide StartsAt;
  }

  lemma StartWithin(cmp: Comparison, keys: seq<Data>, last: Data, start: nat)
    requires StartsAt(cmp, keys, last, start)
    ensures start <= |keys|
  {
  }

  lemma DigestsLength(list: seq<Descriptor>)
    ensures |Digests(list)| == |list|
  {
  }

  lemma NoBody(prefix: Data, list: seq<Descriptor>, start: nat)
    requires start <= |list| && |prefix| + 2 <= MAX_BODY
    ensures IsBody(prefix, list[start..start], prefix)
  {
    assert list[start..start] == [] && prefix + Joined([]) == prefix;
  }

  lemma NoneJoined(prefix: Data)
    ensures prefix + Joined([]) == prefix
  {
  }

  /** What one more descriptor does to a body. */
  lemma BodyMore(prefix: Data, list: seq<Descriptor>, start: nat, position: nat, body: Data)
    requires start <= position < |list| && IsBody(prefix, list[start..position], body)
    ensures var d := list[position];
      var more := (if position > start then body + [0x2c] else body) + d.encoded;
      && (|more| + 2 <= MAX_BODY ==> IsBody(prefix, list[start..position + 1], more))
      && (position == start ==> (FitsAlone(prefix, d) <==> |more| + 2 <= MAX_BODY) && |more| == |body| + |d.encoded|)
      && (position > start ==> |more| == |body| + 1 + |d.encoded|)
  {
    hide Joined;
    var part, d := list[start..position], list[position];
    JoinedMore(prefix, part, d);
    assert part + [d] == list[start..position + 1];
    NoneJoined(prefix);
    if position == start {
      assert part == [];
    }
  }

  /** The body of a page encodes its descriptors. */
  ghost predicate Encodes(prefix: Data, list: seq<Descriptor>, digests: seq<Data>, body: Data)
  {
    exists start: nat :: EncodesFrom(prefix, list, start, digests, body)
  }

  ghost predicate EncodesFrom(prefix: Data, list: seq<Descriptor>, start: nat, digests: seq<Data>, body: Data)
  {
    var end := start + |digests|;
    end <= |list| && digests == Digests(list)[start..end] && body == BodyOf(prefix, list[start..end])
  }

  lemma PageDone(prefix: Data, list: seq<Descriptor>, last: Data, start: nat, position: nat, body: Data)
    requires start <= position <= |list| && StartsAt(Text, Digests(list), last, start) && IsBody(prefix, list[start..position], body)
    ensures var digests := Digests(list[start..position]);
      && |body + [0x5d, 0x7d]| <= MAX_BODY && Encodes(prefix, list, digests, body + [0x5d, 0x7d])
      && (position == |list| ==> IsPage(Text, Digests(list), last, Page(digests, [])))
      && (start < position < |list| ==> IsPage(Text, Digests(list), last, Page(digests, list[position - 1].digest)))
  {
    hide StartsAt, Joined;
    var digests := Digests(list[start..position]);
    assert digests == Digests(list)[start..position];
    assert EncodesFrom(prefix, list, start, digests, body + [0x5d, 0x7d]);
    if position == |list| {
      assert PageFrom(Digests(list), start, Page(digests, []));
    } else if start < position {
      assert PageFrom(Digests(list), start, Page(digests, list[position - 1].digest));
    }
  }

  lemma JoinedMore(prefix: Data, list: seq<Descriptor>, d: Descriptor)
    ensures prefix + Joined(list + [d]) == prefix + Joined(list) + (if list == [] then [] else [0x2c]) + d.encoded
  {
    if list != [] {
      assert (list + [d])[..|list|] == list;
    }
  }

  lemma StartUnique(cmp: Comparison, keys: seq<Data>, last: Data, start: nat)
    requires StartsAt(cmp, keys, last, start)
    ensures forall i: nat | StartsAt(cmp, keys, last, i) :: i == start
  {
    forall i: nat | StartsAt(cmp, keys, last, i) ensures i == start {
      assert Passed(cmp, keys, last, i) <==> i < start;
      assert Passed(cmp, keys, last, start) <==> start < i;
    }
  }

  // ---- following the cursors ----

  /** Answers that follow each other's cursors, each to the listing of its time, up to the last page. */
  ghost predicate Followed(cmp: Comparison, listings: seq<seq<Data>>, pages: seq<Page>, last: Data)
  {
    && |listings| == |pages| > 0 && Sorted(cmp, listings[0]) && IsPage(cmp, listings[0], last, pages[0])
    && (if |pages| == 1 then pages[0].next == []
        else pages[0].next != [] && Followed(cmp, listings[1..], pages[1..], pages[0].next))
  }

  /** A key is in every one of some listings, or in some. */
  ghost predicate Throughout(listings: seq<seq<Data>>, k: Data) { forall i | 0 <= i < |listings| :: k in listings[i] }

  ghost predicate Somewhere(listings: seq<seq<Data>>, k: Data) { exists i :: 0 <= i < |listings| && k in listings[i] }

  function All(pages: seq<Page>): seq<Data> { if pages == [] then [] else pages[0].keys + All(pages[1..]) }

  /** What the pages list lies after the cursor and goes up. */
  lemma {:induction false} Upward(cmp: Comparison, listings: seq<seq<Data>>, pages: seq<Page>, last: Data)
    requires Total(cmp) && Followed(cmp, listings, pages, last)
    ensures Sorted(cmp, All(pages)) && forall i | 0 <= i < |All(pages)| :: cmp(All(pages)[i], last) > 0
    decreases |pages|
  {
    hide Sorted, StartsAt, PageFrom;
    var p, keys := pages[0], listings[0];
    var start: nat :| StartsAt(cmp, keys, last, start) && PageFrom(keys, start, p);
    PageSorted(cmp, keys, last, start, p);
    if |pages| > 1 {
      Upward(cmp, listings[1..], pages[1..], p.next);
      TwoParts(cmp, last, p.keys, All(pages[1..]), p.next);
    } else {
      assert All(pages[1..]) == [] && All(pages) == p.keys;
    }
  }

  /** What is in the listings throughout is not missed. */
  lemma {:induction false} Meets(cmp: Comparison, listings: seq<seq<Data>>, pages: seq<Page>, last: Data, k: Data)
    requires Total(cmp) && Followed(cmp, listings, pages, last)
    requires cmp(k, last) > 0 && Throughout(listings, k)
    ensures k in All(pages)
    decreases |pages|
  {
    hide Total, Sorted, StartsAt, PageFrom;
    var p, keys := pages[0], listings[0];
    var start: nat :| StartsAt(cmp, keys, last, start) && PageFrom(keys, start, p);
    KeyHere(cmp, keys, last, start, p, k);
    if k !in p.keys {
      Meets(cmp, listings[1..], pages[1..], p.next, k);
    }
  }

  /** What is visited was listed. */
  lemma {:induction false} Listed(cmp: Comparison, listings: seq<seq<Data>>, pages: seq<Page>, last: Data, k: Data)
    requires Followed(cmp, listings, pages, last) && k in All(pages)
    ensures Somewhere(listings, k)
    decreases |pages|
  {
    hide Sorted, StartsAt;
    var p, keys := pages[0], listings[0];
    var start: nat :| StartsAt(cmp, keys, last, start) && PageFrom(keys, start, p);
    if k in p.keys {
      var i :| 0 <= i < |p.keys| && p.keys[i] == k;
      assert keys[start + i] == k && k in listings[0];
    } else {
      Listed(cmp, listings[1..], pages[1..], p.next, k);
      var i :| 0 <= i < |listings[1..]| && k in listings[1..][i];
      assert k in listings[i + 1];
    }
  }

  lemma PageSorted(cmp: Comparison, keys: seq<Data>, last: Data, start: nat, p: Page)
    requires Sorted(cmp, keys) && StartsAt(cmp, keys, last, start) && PageFrom(keys, start, p)
    ensures Sorted(cmp, p.keys) && (p.next != [] ==> p.keys != [] && p.next == p.keys[|p.keys| - 1])
    ensures forall k | k in p.keys :: cmp(k, last) > 0
    ensures forall i | 0 <= i < |p.keys| :: cmp(p.keys[i], last) > 0
  {
    forall i | 0 <= i < |p.keys| ensures cmp(p.keys[i], last) > 0 {
      assert p.keys[i] == keys[start + i] && !Passed(cmp, keys, last, start + i);
    }
  }

  /** A key after the cursor is on the page or after the page. */
  lemma KeyHere(cmp: Comparison, keys: seq<Data>, last: Data, start: nat, p: Page, k: Data)
    requires Total(cmp) && Sorted(cmp, keys) && StartsAt(cmp, keys, last, start) && PageFrom(keys, start, p)
    requires k in keys && cmp(k, last) > 0
    ensures k in p.keys || (p.next != [] && cmp(k, p.next) > 0)
  {
    var i :| 0 <= i < |keys| && keys[i] == k;
    var end := start + |p.keys|;
    assert Passed(cmp, keys, last, i) <==> i < start;
    if i < end {
      assert p.keys[i - start] == k;
    } else {
      assert cmp(keys[end - 1], keys[i]) < 0;
    }
  }

  lemma TwoParts(cmp: Comparison, last: Data, a: seq<Data>, b: seq<Data>, next: Data)
    requires Total(cmp) && Sorted(cmp, a) && Sorted(cmp, b) && a != [] && next == a[|a| - 1]
    requires (forall k | k in a :: cmp(k, last) > 0) && forall i | 0 <= i < |b| :: cmp(b[i], next) > 0
    ensures Sorted(cmp, a + b) && forall i | 0 <= i < |a + b| :: cmp((a + b)[i], last) > 0
  {
    var c := a + b;
    forall i, j | 0 <= i < j < |c| ensures cmp(c[i], c[j]) < 0 {
      if i < |a| <= j {
        assert a[i] == next || cmp(a[i], next) < 0;
        Below(cmp, a[i], next, c[j]);
      }
    }
    forall i | 0 <= i < |c| ensures cmp(c[i], last) > 0 {
      if i >= |a| {
        assert next in a;
        Above(cmp, last, next, c[i]);
      }
    }
  }

  /** Following the cursors from the start visits nothing twice, in order, and, though the listing may
      change between requests, misses nothing that is in it throughout. */
  lemma NothingMissed(cmp: Comparison, listings: seq<seq<Data>>, pages: seq<Page>)
    requires Total(cmp) && Followed(cmp, listings, pages, [])
    ensures Sorted(cmp, All(pages))
    ensures forall k | k != [] && Throughout(listings, k) :: k in All(pages)
    ensures forall k | k in All(pages) :: Somewhere(listings, k)
  {
    hide Followed, Sorted;
    Upward(cmp, listings, pages, []);
    forall k | k != [] && Throughout(listings, k) ensures k in All(pages) {
      Meets(cmp, listings, pages, [], k);
    }
    forall k | k in All(pages) ensures Somewhere(listings, k) {
      Listed(cmp, listings, pages, [], k);
    }
  }

  /** Pages of a listing that does not change. */
  ghost predicate Pages(cmp: Comparison, keys: seq<Data>, pages: seq<Page>, last: Data)
  {
    pages != [] ==>
      && IsPage(cmp, keys, last, pages[0])
      && (|pages| > 1 ==> pages[0].next != [] && Pages(cmp, keys, pages[1..], pages[0].next))
  }

  /** Following ends, after at most one request a key and one more; if it has ended, it has listed
      everything, once and in order. */
  lemma {:induction false} Ends(cmp: Comparison, keys: seq<Data>, pages: seq<Page>, last: Data, start: nat)
    requires Total(cmp) && Sorted(cmp, keys) && StartsAt(cmp, keys, last, start) && pages != [] && Pages(cmp, keys, pages, last)
    ensures |pages| <= |keys| - start + 1
    ensures pages[|pages| - 1].next == [] ==> All(pages) == keys[start..]
    ensures pages[|pages| - 1].next != [] ==> |pages| <= |keys| - start
    decreases |pages|
  {
    hide Total, Sorted, StartsAt, PageFrom;
    var p := pages[0];
    StartUnique(cmp, keys, last, start);
    assert PageFrom(keys, start, p);
    var end := start + |p.keys|;
    PageEnds(cmp, keys, start, p);
    if |pages| > 1 {
      Ends(cmp, keys, pages[1..], p.next, end);
    } else {
      assert All(pages[1..]) == [] && All(pages) == p.keys;
    }
  }

  lemma PageEnds(cmp: Comparison, keys: seq<Data>, start: nat, p: Page)
    requires Total(cmp) && Sorted(cmp, keys) && PageFrom(keys, start, p)
    ensures var end := start + |p.keys|;
      && end <= |keys| && p.keys + keys[end..] == keys[start..] && (p.next == [] <==> end == |keys|)
      && (p.next != [] ==> |p.keys| > 0 && StartsAt(cmp, keys, p.next, end))
  {
    var end := start + |p.keys|;
    assert keys[start..end] + keys[end..] == keys[start..];
    if end < |keys| {
      NextStart(cmp, keys, end);
    }
  }

  /** The cursor after a key continues right behind it. */
  lemma NextStart(cmp: Comparison, keys: seq<Data>, end: nat)
    requires Total(cmp) && Sorted(cmp, keys) && 0 < end <= |keys|
    ensures StartsAt(cmp, keys, keys[end - 1], end)
  {
    forall i | 0 <= i < end ensures cmp(keys[i], keys[end - 1]) <= 0 {
      assert i < end - 1 || i == end - 1;
    }
    forall i | end <= i < |keys| ensures cmp(keys[i], keys[end - 1]) > 0 {
      assert cmp(keys[end - 1], keys[i]) < 0;
    }
  }
}
