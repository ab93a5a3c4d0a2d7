/** The done-block bitset of a transfer: 64-bit words, block i at bit i % 64 of word i / 64. */
module Bitset {
  import opened Bytes

  /** w >> k, tested against its low bit: Go's w & (1 << k) != 0. */
  predicate Bit(w: nat, k: nat)
  {
    if k == 0 then w % 2 == 1 else Bit(w / 2, k - 1)
  }

  /** Go's w | 1 << k. */
  function WithBit(w: nat, k: nat): nat
  {
    if k == 0 then if w % 2 == 1 then w else w + 1
    else 2 * WithBit(w / 2, k - 1) + w % 2
  }

  /** Go's w >> k. */
  function ShiftRight(w: nat, k: nat): nat
  {
    if k == 0 then w else ShiftRight(w / 2, k - 1)
  }

  /** bits.OnesCount64. */
  function OnesCount(w: nat): nat
  {
    if w == 0 then 0 else w % 2 + OnesCount(w / 2)
  }

  function Pow2(k: nat): (r: nat)
    ensures r > 0
  {
    if k == 0 then 1 else 2 * Pow2(k - 1)
  }

  lemma {:induction false} WithBitBits(w: nat, k: nat, j: nat)
    ensures Bit(WithBit(w, k), j) <==> j == k || Bit(w, j)
  {
    if k > 0 && j > 0 {
      WithBitBits(w / 2, k - 1, j - 1);
      assert WithBit(w, k) / 2 == WithBit(w / 2, k - 1);
    } else if k == 0 && j > 0 {
      assert WithBit(w, 0) / 2 == w / 2;
    }
  }

  lemma {:induction false} WithBitBound(w: nat, k: nat, n: nat)
    requires w < Pow2(n) && k < n
    ensures WithBit(w, k) < Pow2(n)
  {
    assert Pow2(n) == 2 * Pow2(n - 1);
    if k > 0 {
      WithBitBound(w / 2, k - 1, n - 1);
    }
  }

  lemma {:induction false} ZeroHasNoBit(k: nat)
    ensures !Bit(0, k)
  {
    if k > 0 {
      ZeroHasNoBit(k - 1);
    }
  }

  lemma {:induction false} NoBitBeyond(w: nat, n: nat, k: nat)
    requires w < Pow2(n) && n <= k
    ensures !Bit(w, k)
  {
    if n == 0 {
      ZeroHasNoBit(k);
    } else {
      NoBitBeyond(w / 2, n - 1, k - 1);
    }
  }

  lemma {:induction false} ShiftedBits(w: nat, k: nat, j: nat)
    ensures Bit(ShiftRight(w, k), j) <==> Bit(w, k + j)
  {
    if k > 0 {
      ShiftedBits(w / 2, k - 1, j);
    }
  }

  /** A word without set bits is zero. */
  lemma {:induction false} SomeBit(w: nat) returns (k: nat)
    requires w > 0
    ensures Bit(w, k)
  {
    if w % 2 == 1 {
      k := 0;
    } else {
      k := SomeBit(w / 2);
      k := k + 1;
    }
  }

  lemma WordWidth()
    ensures Pow2(64) == 0x1_0000_0000_0000_0000
  {
    hide Pow2;
    Pow2Sum(32, 32);
    Pow2Sum(16, 16);
    Pow2Sum(8, 8);
    Pow2Sum(4, 4);
    NibbleWidth();
  }

  lemma NibbleWidth()
    ensures Pow2(4) == 16
  {
  }

  lemma {:induction false} Pow2Sum(a: nat, b: nat)
    ensures Pow2(a + b) == Pow2(a) * Pow2(b)
  {
    if a > 0 {
      Pow2Sum(a - 1, b);
    }
  }

  /** The positions of the set bits of a word below 2^n, shifted by base. */
  ghost function WordBits(w: nat, n: nat, base: nat): set<nat>
  {
    set k | 0 <= k < n && Bit(w, k) :: base + k
  }

  lemma {:induction false} OnesCountIsCardinality(w: nat, n: nat, base: nat)
    requires w < Pow2(n)
    ensures OnesCount(w) == |WordBits(w, n, base)|
  {
    if n == 0 {
      assert WordBits(w, n, base) == {};
    } else {
      OnesCountIsCardinality(w / 2, n - 1, base + 1);
      var upper := WordBits(w / 2, n - 1, base + 1);
      var low: set<nat> := if w % 2 == 1 then {base} else {};
      assert WordBits(w, n, base) == low + upper by {
        forall x | x in WordBits(w, n, base) ensures x in low + upper {
          var k :| 0 <= k < n && Bit(w, k) && x == base + k;
          if k > 0 {
            assert Bit(w / 2, k - 1) && x == (base + 1) + (k - 1);
          }
        }
        forall x | x in low + upper ensures x in WordBits(w, n, base) {
          if x in upper {
            var k :| 0 <= k < n - 1 && Bit(w / 2, k) && x == base + 1 + k;
            assert Bit(w, k + 1) && x == base + (k + 1);
          } else {
            assert Bit(w, 0) && x == base + 0;
          }
        }
      }
      assert low !! upper;
      if w == 0 {
        assert OnesCount(w / 2) == 0;
      }
    }
  }

  // ---- the bitset: a sequence of words ----

  function WordCount(blockCount: nat): nat { (blockCount + 63) / 64 }

  predicate Test(bits: seq<u64>, i: nat)
    requires i / 64 < |bits|
  {
    Bit(bits[i / 64], i % 64)
  }

  /** The set a bitset denotes. */
  ghost function Members(bits: seq<u64>): (s: set<nat>)
    ensures forall i: nat :: i in s <==> i / 64 < |bits| && Test(bits, i)
  {
    set i: nat | i < 64 * |bits| && Test(bits, i)
  }

  function Set(bits: seq<u64>, i: nat): (r: seq<u64>)
    requires i / 64 < |bits|
  {
    WordWidth();
    WithBitBound(bits[i / 64], i % 64, 64);
    bits[i / 64 := WithBit(bits[i / 64], i % 64)]
  }

  function Empty(blockCount: nat): seq<u64>
  {
    seq(WordCount(blockCount), _ => 0)
  }

  lemma EmptyMembers(blockCount: nat)
    ensures Members(Empty(blockCount)) == {}
  {
    forall i | i in Members(Empty(blockCount)) ensures false {
      ZeroHasNoBit(i % 64);
    }
  }

  /** Setting a bit adds exactly that block and touches no other. */
  lemma SetMembers(bits: seq<u64>, i: nat)
    requires i / 64 < |bits|
    ensures |Set(bits, i)| == |bits|
    ensures Members(Set(bits, i)) == Members(bits) + {i}
  {
    var r := Set(bits, i);
    forall j: nat
      ensures j in Members(r) <==> j in Members(bits) + {i}
    {
      if j / 64 == i / 64 {
        WithBitBits(bits[i / 64], i % 64, j % 64);
        assert j % 64 == i % 64 ==> j == i;
      }
    }
  }

  function PopCount(bits: seq<u64>): nat
  {
    if bits == [] then 0 else PopCount(bits[..|bits| - 1]) + OnesCount(bits[|bits| - 1])
  }

  /** The population count of the words is the number of blocks in the set. */
  lemma {:induction false} PopCountIsCardinality(bits: seq<u64>)
    ensures PopCount(bits) == |Members(bits)|
  {
    if bits == [] {
      assert Members(bits) == {};
    } else {
      var n := |bits| - 1;
      var init, last := bits[..n], bits[n];
      PopCountIsCardinality(init);
      WordWidth();
      OnesCountIsCardinality(last, 64, 64 * n);
      var tail := WordBits(last, 64, 64 * n);
      assert Members(bits) == Members(init) + tail by {
        forall i | i in Members(bits) ensures i in Members(init) + tail {
          if i / 64 == n {
            assert Bit(last, i % 64) && i == 64 * n + i % 64;
          } else {
            assert Test(init, i);
          }
        }
        forall i | i in Members(init) ensures i in Members(bits) {
          assert Test(bits, i);
        }
        forall i | i in tail ensures i in Members(bits) {
          var k :| 0 <= k < 64 && Bit(last, k) && i == 64 * n + k;
          assert i / 64 == n && i % 64 == k;
        }
      }
      assert Members(init) !! tail;
    }
  }

  /** The words of a set of blocks below the block count. */
  ghost function WordsUpTo(s: set<nat>, blockCount: nat, n: nat): (bits: seq<u64>)
    requires n <= blockCount
    ensures |bits| == WordCount(blockCount)
  {
    if n == 0 then Empty(blockCount)
    else if n - 1 in s then Set(WordsUpTo(s, blockCount, n - 1), n - 1)
    else WordsUpTo(s, blockCount, n - 1)
  }

  ghost function WordsOf(s: set<nat>, blockCount: nat): (bits: seq<u64>)
    ensures |bits| == WordCount(blockCount)
  {
    WordsUpTo(s, blockCount, blockCount)
  }

  lemma {:induction false} WordsUpToMembers(s: set<nat>, blockCount: nat, n: nat)
    requires n <= blockCount
    ensures Members(WordsUpTo(s, blockCount, n)) == set i | i in s && i < n
  {
    if n == 0 {
      EmptyMembers(blockCount);
    } else {
      WordsUpToMembers(s, blockCount, n - 1);
      SetMembers(WordsUpTo(s, blockCount, n - 1), n - 1);
    }
  }

  /** Equal bits make equal words. */
  lemma {:induction false} WordsEqual(v: nat, w: nat, n: nat)
    requires v < Pow2(n) && w < Pow2(n)
    requires forall k | 0 <= k < n :: Bit(v, k) <==> Bit(w, k)
    ensures v == w
  {
    if n > 0 {
      assert Bit(v, 0) <==> Bit(w, 0);
      forall k | 0 <= k < n - 1 ensures Bit(v / 2, k) <==> Bit(w / 2, k) {
        assert Bit(v, k + 1) <==> Bit(w, k + 1);
      }
      WordsEqual(v / 2, w / 2, n - 1);
    }
  }

  /** A bitset is determined by its length and the set it denotes: words are a faithful encoding of
      sets of blocks. */
  lemma WordsOfMembers(bits: seq<u64>, blockCount: nat)
    requires InRange(bits, blockCount)
    ensures WordsOf(Members(bits), blockCount) == bits
  {
    var s := Members(bits);
    var r := WordsOf(s, blockCount);
    WordsUpToMembers(s, blockCount, blockCount);
    assert Members(r) == s;
    WordWidth();
    forall w | 0 <= w < |bits| ensures r[w] == bits[w] {
      forall k | 0 <= k < 64 ensures Bit(r[w], k) <==> Bit(bits[w], k) {
        var i := 64 * w + k;
        assert i / 64 == w && i % 64 == k;
        assert i in Members(r) <==> i in s;
      }
      WordsEqual(r[w], bits[w], 64);
    }
  }

  /** Persisting a set of done blocks and reading it back returns the set. */
  lemma SetRoundTrip(s: set<nat>, blockCount: nat)
    requires forall i | i in s :: i < blockCount
    ensures var back := Decode(Encode(WordsOf(s, blockCount)), blockCount);
      back.Some? && Members(back.value) == s
  {
    var bits := WordsOf(s, blockCount);
    WordsUpToMembers(s, blockCount, blockCount);
    assert Members(bits) == s;
    DecodeEncode(bits, blockCount);
  }

  // ---- the resume-state codec ----

  /** encodeBlockBitset before base64: eight little-endian bytes a word. */
  function Encode(bits: seq<u64>): (raw: Data)
    ensures |raw| == 8 * |bits|
  {
    if bits == [] then [] else Encode(bits[..|bits| - 1]) + PutLE(bits[|bits| - 1], 8)
  }

  function Words(raw: Data): (bits: seq<u64>)
    requires |raw| % 8 == 0
    ensures |bits| == |raw| / 8
  {
    if raw == [] then []
    else
      var n := |raw| - 8;
      GetLEBound(raw[n..]);
      Widths();
      Words(raw[..n]) + [GetLE(raw[n..])]
  }

  /** decodeBlockBitset: the exact length and no bits beyond the block count, or nothing. */
  function Decode(raw: Data, blockCount: nat): Option<seq<u64>>
  {
    var words := WordCount(blockCount);
    if |raw| != 8 * words then None
    else
      var bits := Words(raw);
      var tail := blockCount % 64;
      if tail != 0 && ShiftRight(bits[words - 1], tail) != 0 then None
      else Some(bits)
  }

  lemma {:induction false} WordsOfEncode(bits: seq<u64>)
    ensures Words(Encode(bits)) == bits
  {
    if bits != [] {
      var n := |bits| - 1;
      WordsOfEncode(bits[..n]);
      Widths();
      GetPutLE(bits[n], 8);
      var raw := Encode(bits);
      assert raw[..8 * n] == Encode(bits[..n]);
      assert raw[8 * n..] == PutLE(bits[n], 8);
      assert bits == bits[..n] + [bits[n]];
    }
  }

  ghost predicate InRange(bits: seq<u64>, blockCount: nat)
  {
    && |bits| == WordCount(blockCount)
    && forall i :: i in Members(bits) ==> i < blockCount
  }

  ghost predicate ClearFrom(w: nat, tail: nat)
  {
    forall k | tail <= k < 64 :: !Bit(w, k)
  }

  lemma TailIsClear(top: nat, tail: nat)
    requires top < Pow2(64)
    ensures ShiftRight(top, tail) == 0 <==> ClearFrom(top, tail)
  {
    if ShiftRight(top, tail) != 0 {
      var j := SomeBit(ShiftRight(top, tail));
      ShiftedBits(top, tail, j);
      if tail + j >= 64 {
        NoBitBeyond(top, 64, tail + j);
      }
    } else {
      forall k | tail <= k < 64 ensures !Bit(top, k) {
        ShiftedBits(top, tail, k - tail);
        ZeroHasNoBit(k - tail);
      }
    }
  }

  /** The members at or beyond the block count are the top bits of the last word. */
  lemma InRangeByTail(bits: seq<u64>, blockCount: nat)
    requires |bits| == WordCount(blockCount) && blockCount % 64 != 0
    ensures InRange(bits, blockCount) <==> ClearFrom(bits[|bits| - 1], blockCount % 64)
  {
    var n := |bits| - 1;
    var tail := blockCount % 64;
    assert blockCount == 64 * n + tail;
    if InRange(bits, blockCount) {
      forall k | tail <= k < 64 ensures !Bit(bits[n], k) {
        var i := 64 * n + k;
        assert i / 64 == n && i % 64 == k;
        assert i !in Members(bits);
      }
    } else {
      var i :| i in Members(bits) && i >= blockCount;
      assert i / 64 == n && i == 64 * n + i % 64;
      assert Bit(bits[n], i % 64) && tail <= i % 64 < 64;
    }
  }

  /** What Decode accepts is exactly the bitsets without bits beyond the block count. */
  lemma DecodeAccepts(raw: Data, blockCount: nat)
    ensures Decode(raw, blockCount).Some? <==>
      |raw| == 8 * WordCount(blockCount) && InRange(Words(raw), blockCount)
    ensures Decode(raw, blockCount).Some? ==> Decode(raw, blockCount).value == Words(raw)
  {
    if |raw| == 8 * WordCount(blockCount) {
      var bits := Words(raw);
      if blockCount % 64 != 0 {
        WordWidth();
        TailIsClear(bits[|bits| - 1], blockCount % 64);
        InRangeByTail(bits, blockCount);
      } else {
        assert forall i: nat :: i / 64 < |bits| ==> i < blockCount;
      }
    }
  }

  /** Writing a bitset and reading it back returns the same done blocks. */
  lemma DecodeEncode(bits: seq<u64>, blockCount: nat)
    requires InRange(bits, blockCount)
    ensures Decode(Encode(bits), blockCount) == Some(bits)
  {
    WordsOfEncode(bits);
    DecodeAccepts(Encode(bits), blockCount);
  }

  // ---- where a block's bit is ----

  lemma HalfOfRest(w: nat, q: nat)
    requires q > 0
    ensures w % (2 * q) / 2 == w / 2 % q && w % (2 * q) % 2 == w % 2
  {
    var a, r := w / (2 * q), w % (2 * q);
    assert w == 2 * q * a + r && 2 * q * a == 2 * (q * a);
    assert w / 2 == q * a + r / 2;
    ModUnique(w / 2, q, a, r / 2);
  }

  lemma {:induction false} LowBits(w: nat, m: nat, j: nat)
    requires j < m
    ensures Bit(w % Pow2(m), j) == Bit(w, j)
  {
    HalfOfRest(w, Pow2(m - 1));
    if j > 0 {
      LowBits(w / 2, m - 1, j - 1);
    }
  }

  lemma HighBits(w: nat, n: nat)
    ensures Bit(w, n + 8) == Bit(w / 256, n)
  {
    assert Bit(w, n + 8) == Bit(w / 2, n + 7);
    assert Bit(w / 2, n + 7) == Bit(w / 4, n + 6);
    assert Bit(w / 4, n + 6) == Bit(w / 8, n + 5);
    assert Bit(w / 8, n + 5) == Bit(w / 16, n + 4);
    assert Bit(w / 16, n + 4) == Bit(w / 32, n + 3);
    assert Bit(w / 32, n + 3) == Bit(w / 64, n + 2);
    assert Bit(w / 64, n + 2) == Bit(w / 128, n + 1);
  }

  lemma {:induction false} ByteBit(w: nat, n: nat, k: nat, j: nat)
    requires k < n && j < 8
    ensures Bit(PutLE(w, n)[k], j) == Bit(w, 8 * k + j)
    decreases k
  {
    if k == 0 {
      assert Pow2(8) == 256 by { EightBits(); }
      LowBits(w, 8, j);
    } else {
      ByteBit(w / 256, n - 1, k - 1, j);
      HighBits(w, 8 * (k - 1) + j);
    }
  }

  lemma EightBits()
    ensures Pow2(8) == 256
  {
    assert Pow2(3) == 8;
    assert Pow2(5) == 4 * Pow2(3);
    assert Pow2(7) == 4 * Pow2(5);
  }

  lemma {:induction false} EncodedWord(bits: seq<u64>, i: nat, k: nat)
    requires i < |bits| && k < 8
    ensures Encode(bits)[8 * i + k] == PutLE(bits[i], 8)[k]
  {
    if i < |bits| - 1 {
      EncodedWord(bits[..|bits| - 1], i, k);
    }
  }

  /** Block x is bit x % 8, from the lowest, of byte x / 8 of the encoding. */
  lemma EncodedBit(bits: seq<u64>, x: nat)
    requires x < 64 * |bits|
    ensures x in Members(bits) <==> Bit(Encode(bits)[x / 8], x % 8)
  {
    var i, k := x / 64, x / 8 % 8;
    assert x / 8 == 8 * i + k && x % 64 == 8 * k + x % 8;
    EncodedWord(bits, i, k);
    ByteBit(bits[i], 8, k, x % 8);
  }
}
