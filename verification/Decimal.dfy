/** Decimal text of 128-bit numbers: fu_to_decimal divides a byte string by ten in
    place, fu_from_decimal multiplies one by ten in place. */
module Decimal {
  import opened Positional
  import opened Bytes

  const TWO128 := 0x1_0000_0000_0000_0000_0000_0000_0000_0000

  predicate IsDigit(c: char) { '0' <= c <= '9' }

  function DigitOf(c: char): nat
    requires IsDigit(c)
  {
    (c - '0') as int
  }

  function DigitChar(d: nat): char
    requires d < 10
  {
    '0' + d as char
  }

  predicate AllDigits(s: string) {
    forall i :: 0 <= i < |s| ==> IsDigit(s[i])
  }

  /** The canonical decimal numerals: nonempty, digits, no leading zero. */
  predicate IsDecimal(s: string) {
    |s| > 0 && AllDigits(s) && (|s| > 1 ==> s[0] != '0')
  }

  function Value(s: string): nat
    requires AllDigits(s)
  {
    if |s| == 0 then 0 else Value(s[..|s| - 1]) * 10 + DigitOf(s[|s| - 1])
  }

  function DecimalOf(n: nat): string {
    if n < 10 then [DigitChar(n)] else DecimalOf(n / 10) + [DigitChar(n % 10)]
  }

  /** Printing then reading gives the number back, in canonical form. */
  lemma {:induction false} ValueOfDecimal(n: nat)
    ensures IsDecimal(DecimalOf(n)) && Value(DecimalOf(n)) == n
    ensures n > 0 ==> DecimalOf(n)[0] != '0'
  {
    var s := DecimalOf(n);
    if n < 10 {
      assert s[..0] == [];
    } else {
      ValueOfDecimal(n / 10);
      assert s[..|s| - 1] == DecimalOf(n / 10);
      assert s[0] == DecimalOf(n / 10)[0];
    }
  }

  /** Reading then printing gives a canonical numeral back. */
  lemma {:induction false} DecimalOfValue(s: string)
    requires IsDecimal(s)
    ensures DecimalOf(Value(s)) == s
    ensures |s| > 1 ==> Value(s) >= 10
  {
    var k := |s| - 1;
    if k == 0 {
      assert s[..0] == [];
    } else {
      DecimalOfValue(s[..k]);
      if k == 1 {
        assert s[..1][..0] == [];
        assert Value(s[..1]) == DigitOf(s[0]);
      }
      assert s == s[..k] + [s[k]];
    }
  }

  lemma {:induction false} PrefixIsSmaller(s: string, k: nat)
    requires AllDigits(s) && k <= |s|
    ensures Value(s[..k]) <= Value(s)
    decreases |s| - k
  {
    if k == |s| {
      assert s[..k] == s;
    } else {
      PrefixIsSmaller(s, k + 1);
      assert s[..k + 1][..k] == s[..k];
    }
  }

  lemma {:induction false} LengthBounds(n: nat)
    ensures n < Pow(10, |DecimalOf(n)|)
    ensures n > 0 ==> n >= Pow(10, |DecimalOf(n)| - 1)
  {
    if n >= 10 {
      LengthBounds(n / 10);
    }
  }

  lemma {:induction false} Pow10Grows(m: nat, n: nat)
    requires m <= n
    ensures Pow(10, m) <= Pow(10, n)
  {
    if m < n {
      Pow10Grows(m, n - 1);
    }
  }

  lemma Pow10Of39()
    ensures Pow(10, 39) > TWO128
  {
    assert Pow(10, 13) == 10_000_000_000_000 by { assert Pow(10, 7) == 10_000_000; }
    assert Pow(10, 20) == 100_000_000_000_000_000_000;
    assert Pow(10, 27) == 1_000_000_000_000_000_000_000_000_000;
    assert Pow(10, 34) == 10_000_000_000_000_000_000_000_000_000_000_000;
  }

  /** A 128-bit number has at most 39 digits: the 40-byte buffer never overruns,
      and rejecting longer input loses nothing. */
  lemma AtMost39Digits(n: nat)
    requires n < TWO128
    ensures |DecimalOf(n)| <= 39
  {
    LengthBounds(n);
    Pow10Of39();
    if |DecimalOf(n)| > 39 {
      Pow10Grows(39, |DecimalOf(n)| - 1);
    }
  }

  // ---- comparing numerals as text ------------------------------------------

  /** strcmp($a, $b) > 0 for strings of one length. */
  predicate StrGreater(a: string, b: string)
    requires |a| == |b|
  {
    exists i :: 0 <= i < |a| && a[..i] == b[..i] && a[i] > b[i]
  }

  function DigitsOf(s: string): (ds: seq<nat>)
    requires AllDigits(s)
    ensures |ds| == |s|
  {
    seq<nat>(|s|, i requires 0 <= i < |s| => DigitOf(s[i]))
  }

  lemma {:induction false} ValueIsNumber(s: string)
    requires AllDigits(s)
    ensures Value(s) == Number(10, DigitsOf(s))
  {
    if |s| > 0 {
      var n := |s| - 1;
      ValueIsNumber(s[..n]);
      assert DigitsOf(s)[..n] == DigitsOf(s[..n]);
    }
  }

  lemma SamePrefixDigits(a: string, b: string, i: nat)
    requires |a| == |b| && i <= |a| && AllDigits(a) && AllDigits(b)
    ensures a[..i] == b[..i] <==> DigitsOf(a)[..i] == DigitsOf(b)[..i]
  {
    var d, e := DigitsOf(a), DigitsOf(b);
    if d[..i] == e[..i] {
      forall j | 0 <= j < i
        ensures a[j] == b[j]
      {
        assert d[..i][j] == e[..i][j];
      }
    } else if a[..i] == b[..i] {
      forall j | 0 <= j < i
        ensures d[j] == e[j]
      {
        assert a[..i][j] == b[..i][j];
      }
    }
  }

  /** On digit strings of one length strcmp compares the numbers. */
  lemma StrGreaterIsNumeric(a: string, b: string)
    requires |a| == |b| && AllDigits(a) && AllDigits(b)
    ensures StrGreater(a, b) <==> Value(a) > Value(b)
    ensures a == b <==> Value(a) == Value(b)
  {
    var d, e := DigitsOf(a), DigitsOf(b);
    ValueIsNumber(a);
    ValueIsNumber(b);
    LexLessIsNumeric(10, e, d);
    if StrGreater(a, b) {
      var i :| 0 <= i < |a| && a[..i] == b[..i] && a[i] > b[i];
      SamePrefixDigits(a, b, i);
      assert e[..i] == d[..i] && e[i] < d[i];
    }
    if LexLess(e, d) {
      var i :| 0 <= i < |e| && e[..i] == d[..i] && e[i] < d[i];
      SamePrefixDigits(a, b, i);
      assert a[..i] == b[..i] && a[i] > b[i];
    }
    SamePrefixDigits(a, b, |a|);
    assert a[..|a|] == a && b[..|a|] == b && d[..|a|] == d && e[..|a|] == e;
  }

  /** Three more digits. */
  lemma Append3(s: string, a: char, b: char, c: char)
    requires AllDigits(s) && IsDigit(a) && IsDigit(b) && IsDigit(c)
    ensures AllDigits(s + [a, b, c])
    ensures Value(s + [a, b, c]) == Value(s) * 1000 + DigitOf(a) * 100 + DigitOf(b) * 10 + DigitOf(c)
  {
    var t := s + [a, b, c];
    assert t[..|s| + 2][..|s| + 1] == t[..|s| + 1] && t[..|s| + 1][..|s|] == s;
    assert Value(t[..|s| + 1]) == Value(s) * 10 + DigitOf(a);
    assert Value(t[..|s| + 2]) == Value(t[..|s| + 1]) * 10 + DigitOf(b);
  }

  // ---- to decimal ----------------------------------------------------------

  /** One pass of the long division: t becomes t / 10. */
  method DivideBy10(t: array<byte>) returns (rem: nat, nz: bool)
    requires t.Length == 16
    modifies t
    ensures rem < 10 && old(Be(t[..])) == Be(t[..]) * 10 + rem
    ensures nz <==> Be(t[..]) > 0
  {
    ghost var t0 := t[..];
    rem, nz := 0, false;
    for i := 0 to 16
      invariant rem < 10
      invariant t[i..] == t0[i..]
      invariant Be(t0[..i]) == Be(t[..i]) * 10 + rem
      invariant nz <==> Be(t[..i]) > 0
    {
      var cur: int := rem * 256 + t[i];
      assert t[i] == t[i..][0] == t0[i];
      ghost var front := t[..i];
      t[i] := cur / 10;
      rem := cur % 10;
      if t[i] != 0 {
        nz := true;
      }
      assert t0[..i + 1][..i] == t0[..i];
      assert t[..i + 1][..i] == t[..i] == front;
      assert t[i + 1..] == t0[i + 1..];
    }
    assert t0[..16] == t0 && t[..16] == t[..];
  }

  /** fu_to_decimal: the canonical numeral of the bytes. */
  method ToDecimal(b: Uuid) returns (s: string)
    ensures s == DecimalOf(Be(b))
  {
    var t := new byte[16](i requires 0 <= i < 16 => b[i]);
    assert t[..] == b;
    var buf := new char[40](_ => '0');
    var pos := 40;
    ghost var v := Be(b);
    BeBound(b);
    Pow256Values();
    AtMost39Digits(v);
    while true
      invariant 1 < pos <= 40
      invariant |DecimalOf(v)| == |DecimalOf(Be(t[..]))| + (40 - pos)
      invariant DecimalOf(v) == DecimalOf(Be(t[..])) + buf[pos..]
      decreases Be(t[..])
    {
      ghost var before, tail := Be(t[..]), buf[pos..];
      var rem, nz := DivideBy10(t);
      pos := pos - 1;
      buf[pos] := DigitChar(rem);
      assert buf[pos..] == [DigitChar(rem)] + tail;
      assert nz ==> before >= 10;
      if !nz {
        assert before == rem;
        break;
      }
      assert DecimalOf(before) == DecimalOf(Be(t[..])) + [DigitChar(rem)];
    }
    s := buf[pos..];
  }

  // ---- from decimal --------------------------------------------------------

  lemma HeadStep(suffix: seq<byte>, b: byte)
    ensures Be([b] + suffix) == b * Pow(256, |suffix|) + Be(suffix)
  {
    BeConcat([b], suffix);
    OneDigit(256, [b]);
  }

  /** Low byte kept, the rest carried into the next position. */
  lemma ByteStep(suffix: seq<byte>, low: byte, cur: nat, carry: nat)
    requires cur == carry * 256 + low
    ensures Be([low] + suffix) + carry * Pow(256, |suffix| + 1) == cur * Pow(256, |suffix|) + Be(suffix)
  {
    hide Be;
    HeadStep(suffix, low);
    CarrySum(low, carry, Pow(256, |suffix|));
  }

  lemma CarrySum(low: nat, carry: nat, p: nat)
    ensures low * p + carry * (256 * p) == (carry * 256 + low) * p
  {
    assert carry * (256 * p) == (carry * 256) * p;
  }

  lemma DigitSum(b: nat, c: nat, p: nat)
    ensures (b * 10 + c) * p == b * p * 10 + c * p
  {
  }

  /** One digit in: out becomes out * 10 + digit, with the overflow in carry. */
  method MultiplyBy10(out: array<byte>, digit: nat) returns (carry: nat)
    requires out.Length == 16 && digit < 10
    modifies out
    ensures Be(out[..]) + carry * TWO128 == old(Be(out[..])) * 10 + digit
  {
    assert Pow(256, 0) == 1 && Be([]) == 0;
    hide Be, Pow;
    ghost var o := out[..];
    carry := digit;
    var j := 16;
    while j > 0
      invariant 0 <= j <= 16 && carry < 10
      invariant out[..j] == o[..j]
      invariant Scaled(o[j..], out[j..], digit, carry)
    {
      ghost var suffix, c := out[j..], carry;
      j := j - 1;
      var cur: nat := (out[j] as int) * 10 + carry;
      assert out[j] == out[..j + 1][j] == o[j];
      out[j] := cur % 256;
      carry := cur / 256;
      assert out[j + 1..] == suffix && out[j..] == [out[j]] + suffix;
      assert o[j..] == [o[j]] + o[j + 1..];
      ScaledStep(o[j + 1..], suffix, digit, c, o[j], out[j], carry);
    }
    assert out[0..] == out[..] && o[0..] == o;
    Pow256Values();
  }

  /** `now` with `carry` above it is ten times `was` plus the digit. */
  ghost predicate Scaled(was: seq<byte>, now: seq<byte>, digit: nat, carry: nat) {
    |was| == |now| && Be(now) + carry * Pow(256, |now|) == Be(was) * 10 + digit
  }

  lemma ScaledStep(was: seq<byte>, now: seq<byte>, digit: nat, c: nat, b: byte, low: byte, carry: nat)
    requires Scaled(was, now, digit, c) && carry * 256 + low == (b as int) * 10 + c
    ensures Scaled([b] + was, [low] + now, digit, carry)
  {
    hide Be, Pow;
    ByteStep(now, low, b * 10 + c, carry);
    HeadStep(was, b);
    DigitSum(b, c, Pow(256, |now|));
  }

  /** fu_from_decimal: accepts exactly the canonical numerals below 2^128. */
  method FromDecimal(s: string, out: array<byte>) returns (ok: bool)
    requires out.Length == 16
    modifies out
    ensures ok <==> IsDecimal(s) && Value(s) < TWO128
    ensures ok ==> Be(out[..]) == Value(s)
  {
    if |s| == 0 {
      return false;
    }
    if (|s| > 1 && s[0] == '0') || |s| > 39 {
      if IsDecimal(s) && Value(s) < TWO128 {
        DecimalOfValue(s);
        AtMost39Digits(Value(s));
      }
      return false;
    }
    for k := 0 to 16
      invariant forall j :: 0 <= j < k ==> out[j] == 0
    {
      out[k] := 0;
    }
    ZeroIs(out[..]);
    for i := 0 to |s|
      invariant AllDigits(s[..i])
      invariant Be(out[..]) == Value(s[..i]) < TWO128
    {
      if s[i] < '0' || s[i] > '9' {
        return false;
      }
      var carry := MultiplyBy10(out, DigitOf(s[i]));
      assert s[..i + 1][..i] == s[..i];
      assert Be(out[..]) + carry * TWO128 == Value(s[..i + 1]);
      if carry != 0 {
        if AllDigits(s) {
          PrefixIsSmaller(s, i + 1);
        }
        return false;
      }
      BeBound(out[..]);
      Pow256Values();
    }
    assert s[..|s|] == s;
    return true;
  }

  lemma {:induction false} ZeroIs(s: seq<byte>)
    requires forall i :: 0 <= i < |s| ==> s[i] == 0
    ensures Be(s) == 0
  {
    if |s| > 0 {
      ZeroIs(s[..|s| - 1]);
    }
  }

  /** The two functions are inverse between all UUIDs and the accepted numerals. */
  lemma DecimalIsBijective(b: Uuid, s: string)
    ensures IsDecimal(DecimalOf(Be(b))) && Value(DecimalOf(Be(b))) == Be(b) < TWO128
    ensures IsDecimal(s) && Value(s) < TWO128 ==>
      (Value(s) == Be(b) <==> DecimalOf(Be(b)) == s)
  {
    ValueOfDecimal(Be(b));
    BeBound(b);
    Pow256Values();
    if IsDecimal(s) {
      DecimalOfValue(s);
    }
  }
}
