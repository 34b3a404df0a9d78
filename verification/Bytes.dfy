/** Bytes, fixed-width integers and byte-string order.
    C's unsigned shifts and masks by powers of two are written as division and
    remainder; every intermediate of type `Word` is checked to fit a uint64_t. */
module Bytes {
  import opened Positional

  type byte = x: int | 0 <= x < 256
  type Word = x: int | 0 <= x < 0x1_0000_0000_0000_0000
  type Uuid = s: seq<byte> | |s| == 16 witness seq(16, _ => 0)

  datatype Option<+T> = None | Some(value: T)

  /** The number a big-endian byte string denotes. */
  function Be(s: seq<byte>): nat { Number(256, s) }

  /** Shifting twice is shifting once. */
  lemma DivDiv(x: nat, a: nat, b: nat)
    requires a > 0 && b > 0
    ensures a * b > 0 && x / (a * b) == x / a / b
  {
    DivMod(x, a);
    DivMod(x / a, b);
    DivDivParts(x, a, b, x / a, x % a, x / a / b, x / a % b);
  }

  lemma DivMod(x: nat, a: nat)
    requires a > 0
    ensures x == a * (x / a) + x % a && x % a < a
  {
  }

  lemma DivDivParts(x: nat, a: nat, b: nat, q: nat, r: nat, q2: nat, r2: nat)
    requires x == a * q + r && r < a && q == b * q2 + r2 && r2 < b
    ensures a * b > 0 && x / (a * b) == q2
  {
    Distribute(a, b, q2, r2);
    Below(a, r2, b);
    QuotientIs(x, a * b, q2, a * r2 + r);
  }

  lemma Distribute(a: nat, b: nat, c: nat, d: nat)
    ensures a * (b * c + d) == (a * b) * c + a * d
  {
  }

  lemma Below(a: nat, r: nat, b: nat)
    requires r < b
    ensures a * r + a <= a * b
  {
    assert a * (r + 1) <= a * b;
  }

  lemma QuotientIs(x: nat, d: nat, q: nat, r: nat)
    requires d > 0 && r < d && x == d * q + r
    ensures x / d == q
  {
    DivMod(x, d);
    Minus(d, q, x / d);
    Spread(d, q - x / d);
  }

  lemma Minus(d: int, a: int, b: int)
    ensures d * (a - b) == d * a - d * b
  {
  }

  lemma Spread(d: int, k: int)
    requires d >= 0
    ensures k >= 1 ==> d * k >= d
    ensures k <= -1 ==> d * k <= -d
  {
    if k >= 1 {
      Minus(d, k, 1);
      NonNegative(d, k - 1);
    } else if k <= -1 {
      Minus(d, 0, k + 1);
      Minus(d, k + 1, 1);
      NonNegative(d, -(k + 1));
    }
  }

  lemma NonNegative(d: int, k: int)
    requires d >= 0 && k >= 0
    ensures d * k >= 0
  {
  }

  /** memcmp(a, b, n) < 0: at the first differing position `a` has the smaller byte. */
  ghost predicate MemLess(a: seq<byte>, b: seq<byte>)
    requires |a| == |b|
  {
    LexLess(a, b)
  }

  lemma BeInjective(a: seq<byte>, b: seq<byte>)
    requires |a| == |b| && Be(a) == Be(b)
    ensures a == b
  {
    LexLessIsNumeric(256, a, b);
  }

  /** memcmp order is the numeric order of the big-endian values. */
  lemma MemLessIsNumeric(a: seq<byte>, b: seq<byte>)
    requires |a| == |b|
    ensures MemLess(a, b) <==> Be(a) < Be(b)
  {
    LexLessIsNumeric(256, a, b);
  }

  lemma BeConcat(a: seq<byte>, b: seq<byte>)
    ensures Be(a + b) == Be(a) * Pow(256, |b|) + Be(b)
  {
    NumberConcat(256, a, b);
  }

  /** Little-endian value, and the n low bytes of a number in that order. */
  function Le(s: seq<byte>): nat {
    if |s| == 0 then 0 else s[0] + 256 * Le(s[1..])
  }

  function LeBytes(x: nat, n: nat): (s: seq<byte>)
    ensures |s| == n
  {
    if n == 0 then [] else [x % 256] + LeBytes(x / 256, n - 1)
  }

  lemma {:induction false} LeOfBytes(x: nat, n: nat)
    requires x < Pow(256, n)
    ensures Le(LeBytes(x, n)) == x
  {
    if n > 0 {
      LeOfBytes(x / 256, n - 1);
      assert LeBytes(x, n)[1..] == LeBytes(x / 256, n - 1);
    }
  }

  lemma {:induction false} BytesOfLe(s: seq<byte>)
    ensures LeBytes(Le(s), |s|) == s
    ensures Le(s) < Pow(256, |s|)
  {
    if |s| > 0 {
      var rest := Le(s[1..]);
      BytesOfLe(s[1..]);
      assert (s[0] + 256 * rest) % 256 == s[0] && (s[0] + 256 * rest) / 256 == rest;
      assert s == [s[0]] + s[1..];
    }
  }

  lemma BeBound(s: seq<byte>)
    ensures Be(s) < Pow(256, |s|)
  {
    NumberBound(256, s);
  }

  lemma Pow256Values()
    ensures Pow(256, 6) == 0x1_0000_0000_0000
    ensures Pow(256, 8) == 0x1_0000_0000_0000_0000
    ensures Pow(256, 16) == 0x1_0000_0000_0000_0000_0000_0000_0000_0000
  {
    assert Pow(256, 4) == 0x1_0000_0000;
    assert Pow(256, 8) == 0x1_0000_0000_0000_0000;
    assert Pow(256, 12) == 0x1_0000_0000_0000_0000_0000_0000;
  }
}
