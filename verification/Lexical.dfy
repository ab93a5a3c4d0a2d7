/** Three-way comparison of numbers and of byte strings. */
module Lexical {
  import opened Bytes

  function Sign(n: int): int { if n < 0 then -1 else if n > 0 then 1 else 0 }

  /** Bytewise comparison. */
  function Text(a: Data, b: Data): (c: int)
    ensures -1 <= c <= 1
  {
    if a == [] && b == [] then 0
    else if a == [] then -1
    else if b == [] then 1
    else if a[0] != b[0] then Sign((a[0] as int) - (b[0] as int))
    else Text(a[1..], b[1..])
  }

  lemma {:induction false} TextFlips(a: Data, b: Data)
    ensures Text(b, a) == -Text(a, b) && (Text(a, b) == 0 <==> a == b)
  {
    if a != [] && b != [] && a[0] == b[0] {
      TextFlips(a[1..], b[1..]);
      assert a == [a[0]] + a[1..] && b == [b[0]] + b[1..];
    }
  }

  lemma {:induction false} TextChains(a: Data, b: Data, c: Data)
    requires Text(a, b) <= 0 && Text(b, c) <= 0
    ensures Text(a, c) <= 0
    ensures Text(a, c) == 0 ==> Text(a, b) == 0 && Text(b, c) == 0
  {
    if a != [] && b != [] && c != [] && a[0] == b[0] == c[0] {
      TextChains(a[1..], b[1..], c[1..]);
    }
  }

  /** A text is below another exactly if it is a proper beginning of it or has the smaller byte where they
      first differ. */
  ghost predicate TextBelow(p: Data, q: Data)
  {
    exists n: nat :: n <= |p| && n < |q| && p[..n] == q[..n] && (n == |p| || p[n] < q[n])
  }

  lemma TextIs(p: Data, q: Data)
    ensures Text(p, q) < 0 <==> TextBelow(p, q)
  {
    if Text(p, q) < 0 {
      var n := FirstDifference(p, q);
    } else if TextBelow(p, q) {
      var n: nat :| n <= |p| && n < |q| && p[..n] == q[..n] && (n == |p| || p[n] < q[n]);
      BelowIsText(p, q, n);
    }
  }

  lemma {:induction false} FirstDifference(p: Data, q: Data) returns (n: nat)
    requires Text(p, q) < 0
    ensures n <= |p| && n < |q| && p[..n] == q[..n] && (n == |p| || p[n] < q[n])
  {
    n := 0;
    if p != [] && p[0] == q[0] {
      var m := FirstDifference(p[1..], q[1..]);
      n := m + 1;
      assert p[..n] == [p[0]] + p[1..][..m] && q[..n] == [q[0]] + q[1..][..m];
    }
  }

  lemma {:induction false} BelowIsText(p: Data, q: Data, n: nat)
    requires n <= |p| && n < |q| && p[..n] == q[..n] && (n == |p| || p[n] < q[n])
    ensures Text(p, q) < 0
  {
    if n > 0 {
      assert p[0] == p[..n][0] && q[0] == q[..n][0];
      assert p[1..][..n - 1] == p[..n][1..] && q[1..][..n - 1] == q[..n][1..];
      BelowIsText(p[1..], q[1..], n - 1);
    }
  }

  // ---- digits ----

  predicate IsDigit(c: u8) { 0x30 <= c <= 0x39 }

  predicate AllDigits(s: Data) { forall i | 0 <= i < |s| :: IsDigit(s[i]) }

  function Value(digits: Data): nat
    requires forall i | 0 <= i < |digits| :: IsDigit(digits[i])
  {
    if digits == [] then 0 else Value(digits[..|digits| - 1]) * 10 + Digit(digits[|digits| - 1])
  }

  function Digit(c: u8): (d: nat) requires IsDigit(c) ensures d <= 9 { (c as int) - 0x30 }

  lemma {:induction false} ZerosFirst(s: Data, z: nat)
    requires z <= |s| && (forall i | 0 <= i < z :: s[i] == 0x30) && forall i | 0 <= i < |s| :: IsDigit(s[i])
    ensures Value(s) == Value(s[z..])
    decreases |s|
  {
    if z < |s| {
      var init := s[..|s| - 1];
      ZerosFirst(init, z);
      assert s[z..][..|s| - z - 1] == init[z..];
    } else if z > 0 {
      ZerosFirst(s[..|s| - 1], z - 1);
      assert s[..|s| - 1][z - 1..] == [] && s[z..] == [];
    }
  }

  /** A number without leading zeros is greater than any with fewer digits. */
  lemma {:induction false} LongerIsGreater(x: Data, y: Data)
    requires (forall i | 0 <= i < |x| :: IsDigit(x[i])) && forall i | 0 <= i < |y| :: IsDigit(y[i])
    requires |x| > |y| && x[0] != 0x30
    ensures Value(x) > Value(y)
    decreases |x|
  {
    if |y| == 0 {
      if |x| > 1 {
        LongerIsGreater(x[..|x| - 1], y);
      }
    } else {
      LongerIsGreater(x[..|x| - 1], y[..|y| - 1]);
    }
  }

  lemma {:induction false} TextFromEnd(a: Data, b: Data)
    requires |a| == |b| > 0
    ensures var n := |a| - 1;
      Text(a, b) == if Text(a[..n], b[..n]) != 0 then Text(a[..n], b[..n]) else Sign((a[n] as int) - (b[n] as int))
  {
    var n := |a| - 1;
    if n > 0 && a[0] == b[0] {
      assert a[1..][..n - 1] == a[..n][1..] && b[1..][..n - 1] == b[..n][1..];
      TextFromEnd(a[1..], b[1..]);
    }
  }

  /** Numbers with as many digits compare as text. */
  lemma {:induction false} SameLength(a: Data, b: Data)
    requires AllDigits(a) && AllDigits(b) && |a| == |b|
    ensures Text(a, b) == Sign(Value(a) - Value(b))
  {
    hide Text;
    if a != [] {
      TextFromEnd(a, b);
      SameLength(a[..|a| - 1], b[..|b| - 1]);
    } else {
      TextFlips(a, b);
    }
  }
}
