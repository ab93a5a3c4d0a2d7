/** Machine bytes and the fixed-width integer encodings of Go's encoding/binary. */
module Bytes {

  type u8 = x: int | 0 <= x < 0x100
  type u32 = x: int | 0 <= x < 0x1_0000_0000
  type u64 = x: int | 0 <= x < 0x1_0000_0000_0000_0000

  type Data = seq<u8>

  datatype Option<+T> = None | Some(value: T)

  function Max(a: int, b: int): int { if a < b then b else a }

  function Min(a: int, b: int): int { if a < b then a else b }

  function CeilDiv(a: nat, b: nat): nat
    requires b > 0
  {
    (a + b - 1) / b
  }

  lemma MulLe(a: int, b: int, n: nat)
    requires a <= b
    ensures a * n <= b * n
  {
    var d: nat := b - a;
    assert b * n == a * n + d * n;
  }

  lemma MulNext(a: int, n: int)
    ensures (a + 1) * n == a * n + n
  {
  }

  function Zeros(n: nat): (z: Data)
    ensures |z| == n && forall i :: 0 <= i < n ==> z[i] == 0
  {
    seq(n, _ => 0)
  }

  /** 256 to the power n: the number of values an n-byte word can hold. */
  function Pow256(n: nat): (r: nat)
    ensures r > 0
  {
    if n == 0 then 1 else 256 * Pow256(n - 1)
  }

  lemma Widths()
    ensures Pow256(1) == 0x100 && Pow256(2) == 0x1_0000
    ensures Pow256(4) == 0x1_0000_0000 && Pow256(8) == 0x1_0000_0000_0000_0000
  {
    assert Pow256(2) == 256 * Pow256(1);
    assert Pow256(3) == 256 * Pow256(2);
    assert Pow256(4) == 256 * Pow256(3);
    assert Pow256(5) == 256 * Pow256(4);
    assert Pow256(6) == 256 * Pow256(5);
    assert Pow256(7) == 256 * Pow256(6);
  }

  /** The low n bytes of x, most significant first: PutUint16/32/64 after Go's truncating conversion. */
  function PutBE(x: int, n: nat): (b: Data)
    ensures |b| == n
    decreases n
  {
    if n == 0 then [] else PutBE(x / 256, n - 1) + [x % 256]
  }

  function GetBE(b: Data): nat
  {
    if b == [] then 0 else 256 * GetBE(b[..|b| - 1]) + b[|b| - 1]
  }

  /** The low n bytes of x, least significant first. */
  function PutLE(x: nat, n: nat): (b: Data)
    ensures |b| == n
  {
    if n == 0 then [] else [x % 256] + PutLE(x / 256, n - 1)
  }

  function GetLE(b: Data): nat
  {
    if b == [] then 0 else b[0] + 256 * GetLE(b[1..])
  }

  /** Decoding an encoded word recovers it modulo the word size, also for negative x (two's complement). */
  lemma {:induction false} GetPutBE(x: int, n: nat)
    ensures GetBE(PutBE(x, n)) == x % Pow256(n)
    decreases n
  {
    if n > 0 {
      var b := PutBE(x, n);
      assert b[..n - 1] == PutBE(x / 256, n - 1);
      GetPutBE(x / 256, n - 1);
      ModSplit(x, Pow256(n - 1));
    }
  }

  lemma ModSplit(x: int, m: nat)
    requires m > 0
    ensures x % (256 * m) == 256 * (x / 256 % m) + x % 256
  {
    var y := x / 256;
    var q, r := y / m, y % m;
    assert x == 256 * y + x % 256 && y == m * q + r;
    var low := 256 * r + x % 256;
    assert x == (256 * m) * q + low by {
      assert 256 * (m * q) == (256 * m) * q;
    }
    ModUnique(x, 256 * m, q, low);
  }

  lemma ModUnique(x: int, m: nat, q: int, r: nat)
    requires m > 0 && x == m * q + r && r < m
    ensures x % m == r
  {
    var d := x / m - q;
    assert x == m * (x / m) + x % m;
    assert m * (x / m) - m * q == m * d;
    if d != 0 {
      MulAtLeast(m, d);
    }
  }

  lemma MulAtLeast(m: nat, d: int)
    requires d != 0
    ensures m * d >= m || m * d <= 0 - m
  {
    if d > 0 {
      assert m * (d - 1) >= 0;
    } else {
      assert m * (-d - 1) >= 0;
    }
  }

  lemma {:induction false} GetBEBound(b: Data)
    ensures GetBE(b) < Pow256(|b|)
  {
    if b != [] {
      GetBEBound(b[..|b| - 1]);
    }
  }

  /** Encoding a decoded word recovers its bytes. */
  lemma {:induction false} PutGetBE(b: Data)
    ensures PutBE(GetBE(b), |b|) == b
  {
    if b != [] {
      PutGetBE(b[..|b| - 1]);
      assert GetBE(b) / 256 == GetBE(b[..|b| - 1]);
      assert b == b[..|b| - 1] + [b[|b| - 1]];
    }
  }

  lemma {:induction false} GetPutLE(x: nat, n: nat)
    requires x < Pow256(n)
    ensures GetLE(PutLE(x, n)) == x
  {
    if n > 0 {
      GetPutLE(x / 256, n - 1);
      assert PutLE(x, n)[1..] == PutLE(x / 256, n - 1);
    }
  }

  lemma {:induction false} GetLEBound(b: Data)
    ensures GetLE(b) < Pow256(|b|)
  {
    if b != [] {
      GetLEBound(b[1..]);
    }
  }
}
