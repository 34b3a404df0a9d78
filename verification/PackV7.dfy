/** The 48-bit millisecond field of version 7, computed four ways: in C, by 16-bit
    limbs in PHP, by long division of a decimal string in PHP, and from an int. */
module PackV7 {
  import opened Positional
  import opened Bytes
  import opened Layout
  import opened Decimal

  /** A PHP integer on a 32-bit build. */
  type Int32 = x: int | -0x8000_0000 <= x < 0x8000_0000
  type Int64 = x: int | -0x8000_0000_0000_0000 <= x < 0x8000_0000_0000_0000
  type Milli = x: int | 0 <= x < 1000
  type Micro = x: int | 0 <= x < 1_000_000

  // ---- C -------------------------------------------------------------------

  /** fu_v7_at_datetime: milliseconds and the 12-bit fraction, or an exception. */
  function DateTimeFields(sec: Int64, us: Micro): Option<(nat, nat)> {
    if sec < 0 || sec > 281474976710 then None
    else
      var ms: Word := sec * 1000 + us / 1000;
      if ms > 0xffff_ffff_ffff then None
      else Some((ms, us % 1000 * 4096 / 1000))
  }

  /** fu_v7_at_ms */
  function IntFields(ms: Int64): Option<(nat, nat)> {
    if ms < 0 || ms > 0xffff_ffff_ffff then None else Some((ms, 0))
  }

  // ---- PHP, binary ---------------------------------------------------------

  /** pack('n3', ...) */
  function PackN3(a: nat, b: nat, c: nat): (s: seq<byte>)
    requires a < 0x1_0000 && b < 0x1_0000 && c < 0x1_0000
    ensures |s| == 6
  {
    [a / 256, a % 256, b / 256, b % 256, c / 256, c % 256]
  }

  lemma PackN3Value(a: nat, b: nat, c: nat)
    requires a < 0x1_0000 && b < 0x1_0000 && c < 0x1_0000
    ensures Be(PackN3(a, b, c)) == a * 0x1_0000_0000 + b * 0x1_0000 + c
  {
    var s := PackN3(a, b, c);
    assert s[..5][..4] == s[..4] && s[..4][..3] == s[..3] && s[..3][..2] == s[..2] && s[..2][..1] == s[..1];
    OneDigit(256, s[..1]);
    assert Be(s[..2]) == Be(s[..1]) * 256 + s[1];
    assert Be(s[..3]) == Be(s[..2]) * 256 + s[2];
    assert Be(s[..4]) == Be(s[..3]) * 256 + s[3];
    assert Be(s[..5]) == Be(s[..4]) * 256 + s[4];
  }

  /** packV7Milliseconds, for seconds the callers let through. */
  function PackMilliseconds(seconds: Int64, ms: Milli): (s: seq<byte>)
    requires seconds >= 0
    ensures |s| == 6
  {
    var low, middle, high := seconds % 0x1_0000, seconds / 0x1_0000 % 0x1_0000, seconds / 0x1_0000_0000;
    var lowProduct: Int32 := low * 1000 + ms;
    var middleProduct: Int32 := middle * 1000 + lowProduct / 0x1_0000;
    var millisHigh: Int64 := high * 1000 + middleProduct / 0x1_0000;
    PackN3(millisHigh % 0x1_0000, middleProduct % 0x1_0000, lowProduct % 0x1_0000)
  }

  lemma PackMillisecondsValue(seconds: Int64, ms: Milli)
    requires 0 <= seconds && seconds * 1000 + ms <= 0xffff_ffff_ffff
    ensures Be(PackMilliseconds(seconds, ms)) == seconds * 1000 + ms
  {
    hide Be, PackN3;
    var low, middle, high := seconds % 0x1_0000, seconds / 0x1_0000 % 0x1_0000, seconds / 0x1_0000_0000;
    assert seconds / 0x1_0000 / 0x1_0000 == high;
    var lowProduct := low * 1000 + ms;
    var middleProduct := middle * 1000 + lowProduct / 0x1_0000;
    var millisHigh := high * 1000 + middleProduct / 0x1_0000;
    LimbSum(low, middle, high, ms, lowProduct, middleProduct, millisHigh);
    PackN3Value(millisHigh % 0x1_0000, middleProduct % 0x1_0000, lowProduct % 0x1_0000);
  }

  lemma LimbSum(low: nat, middle: nat, high: nat, ms: nat, lowProduct: nat, middleProduct: nat, millisHigh: nat)
    requires lowProduct == low * 1000 + ms
    requires middleProduct == middle * 1000 + lowProduct / 0x1_0000
    requires millisHigh == high * 1000 + middleProduct / 0x1_0000
    requires (high * 0x1_0000_0000 + middle * 0x1_0000 + low) * 1000 + ms <= 0xffff_ffff_ffff
    ensures millisHigh % 0x1_0000 * 0x1_0000_0000 + middleProduct % 0x1_0000 * 0x1_0000 + lowProduct % 0x1_0000
      == (high * 0x1_0000_0000 + middle * 0x1_0000 + low) * 1000 + ms
  {
    assert millisHigh < 0x1_0000;
  }

  /** v7TimestampBytes on an int of milliseconds. */
  function IntBytes(ms: Int64): Option<seq<byte>> {
    if ms < 0 || ms > 0xffff_ffff_ffff then None
    else Some(PackMilliseconds(ms / 1000, ms % 1000))
  }

  /** v7TimestampBytes on a DateTime whose class may override its methods. */
  function ForeignBytes(seconds: Int64, us: Micro): Option<seq<byte>> {
    if seconds < 0 then None
    else
      var ms := us / 1000;
      if seconds > (0xffff_ffff_ffff - ms) / 1000 then None
      else Some(PackMilliseconds(seconds, ms))
  }

  // ---- PHP, decimal string -------------------------------------------------

  /** ltrim($s, '0') */
  function Trim(s: string): string {
    if |s| > 0 && s[0] == '0' then Trim(s[1..]) else s
  }

  lemma {:induction false} LeadingZero(s: string)
    requires AllDigits(s) && |s| > 0 && s[0] == '0'
    ensures Value(s[1..]) == Value(s)
  {
    var n := |s| - 1;
    if n == 0 {
      assert s[..0] == [] && s[1..] == [];
    } else {
      LeadingZero(s[..n]);
      assert s[..n][1..] == s[1..][..n - 1];
    }
  }

  lemma {:induction false} TrimKeepsValue(s: string)
    requires AllDigits(s)
    ensures AllDigits(Trim(s)) && Value(Trim(s)) == Value(s)
    ensures |Trim(s)| > 0 ==> Trim(s)[0] != '0'
  {
    if |s| > 0 && s[0] == '0' {
      LeadingZero(s);
      TrimKeepsValue(s[1..]);
    }
  }

  const MAX_SECONDS := "281474976710"

  lemma MaxSecondsValue()
    ensures AllDigits(MAX_SECONDS) && Value(MAX_SECONDS) == 281474976710
  {
    Append3("", '2', '8', '1');
    Append3("281", '4', '7', '4');
    Append3("281474", '9', '7', '6');
    Append3("281474976", '7', '1', '0');
    assert "" + ['2', '8', '1'] == "281" && "281" + ['4', '7', '4'] == "281474";
    assert "281474" + ['9', '7', '6'] == "281474976" && "281474976" + ['7', '1', '0'] == MAX_SECONDS;
  }

  /** The range test on the trimmed numeral. */
  predicate OutOfRange(s: string, ms: Milli) {
    || |s| > |MAX_SECONDS|
    || (|s| == |MAX_SECONDS| && StrGreater(s, MAX_SECONDS))
    || (s == MAX_SECONDS && ms > 655)
  }

  /** It rejects exactly what does not fit 48 bits. */
  lemma OutOfRangeIff(s: string, ms: Milli)
    requires IsDecimal(s)
    ensures OutOfRange(s, ms) <==> Value(s) * 1000 + ms > 0xffff_ffff_ffff
  {
    MaxSecondsValue();
    DecimalOfValue(s);
    LengthBounds(Value(s));
    assert Pow(10, 11) == 100_000_000_000 && Pow(10, 12) == 1_000_000_000_000;
    if |s| > 12 {
      Pow10Grows(12, |s| - 1);
      assert Value(s) > 0;
    } else if |s| == 12 {
      StrGreaterIsNumeric(s, MAX_SECONDS);
    } else {
      Pow10Grows(|s|, 11);
    }
  }

  function Limb(limbs: seq<Int32>, i: nat): Int32 {
    if i < |limbs| then limbs[i] else 0
  }

  function Scale(k: nat): nat {
    if k == 0 then 1 else if k == 1 then 0x1_0000 else if k == 2 then 0x1_0000_0000 else 0x1_0000_0000_0000
  }

  /** The value of the first n limbs, at most three. */
  function Weighted(limbs: seq<Int32>, n: nat): int {
    (if n > 0 then Limb(limbs, 0) as int else 0) +
    (if n > 1 then Limb(limbs, 1) as int * 0x1_0000 else 0) +
    (if n > 2 then Limb(limbs, 2) as int * 0x1_0000_0000 else 0)
  }

  /** What the limbs so far and the numeral still to divide make together. */
  ghost predicate Split(v: nat, limbs: seq<Int32>, rest: string) {
    && AllDigits(rest)
    && |limbs| <= 3
    && (forall i :: 0 <= i < |limbs| ==> 0 <= limbs[i] < 0x1_0000)
    && v == Weighted(limbs, 3) + Scale(|limbs|) * Value(rest)
  }

  /** One long division of a decimal numeral by 2^16. */
  method DivideByLimb(s: string) returns (quotient: string, remainder: Int32)
    requires AllDigits(s)
    ensures AllDigits(quotient) && 0 <= remainder < 0x1_0000
    ensures Value(s) == Value(quotient) * 0x1_0000 + remainder
    ensures |quotient| > 0 ==> quotient[0] != '0'
  {
    quotient, remainder := "", 0;
    for i := 0 to |s|
      invariant AllDigits(quotient) && 0 <= remainder < 0x1_0000
      invariant Value(s[..i]) == Value(quotient) * 0x1_0000 + remainder
      invariant |quotient| > 0 ==> quotient[0] != '0'
    {
      var current: Int32 := remainder * 10 + DigitOf(s[i]);
      var digit := current / 0x1_0000;
      remainder := current % 0x1_0000;
      ghost var q := quotient;
      if quotient != "" || digit != 0 {
        quotient := quotient + [DigitChar(digit)];
        assert quotient[..|q|] == q;
      }
      assert s[..i + 1][..i] == s[..i];
    }
    assert s[..|s|] == s;
  }

  /** packV7DecimalSeconds: the 48-bit number, or an exception exactly when the text
      is negative or the number does not fit. Every intermediate is an Int32. */
  method PackDecimalSeconds(seconds: string, milliseconds: Milli) returns (res: Option<seq<byte>>)
    requires |seconds| > 0 && (AllDigits(seconds) || seconds[0] == '-')
    ensures seconds[0] == '-' ==> res.None?
    ensures seconds[0] != '-' ==>
      (res.Some? <==> Value(seconds) * 1000 + milliseconds <= 0xffff_ffff_ffff)
    ensures res.Some? ==> |res.value| == 6 && Be(res.value) == Value(seconds) * 1000 + milliseconds
  {
    if seconds[0] == '-' {
      return None;
    }
    TrimKeepsValue(seconds);
    var s := Trim(seconds);
    if s == "" {
      s := "0";
      assert s[..0] == "";
    }
    OutOfRangeIff(s, milliseconds);
    if OutOfRange(s, milliseconds) {
      return None;
    }
    ghost var v := Value(s);
    var limbs: seq<Int32>, remaining := [], s;
    while true
      invariant |limbs| <= 2 && Split(v, limbs, remaining)
      invariant |remaining| > 0
      invariant |limbs| > 0 ==> remaining[0] != '0'
      decreases 3 - |limbs|
    {
      var quotient, remainder := DivideByLimb(remaining);
      SplitStep(v, limbs, remaining, quotient, remainder);
      limbs := limbs + [remainder];
      remaining := quotient;
      if remaining == "" {
        break;
      }
      LeadingDigit(remaining);
    }
    assert v == Weighted(limbs, 3);
    var result := MultiplyLimbs(limbs, milliseconds);
    PackN3Value(result[2], result[1], result[0]);
    return Some(PackN3(result[2], result[1], result[0]));
  }

  /** The limbs times 1000, plus the milliseconds, modulo 2^48. */
  method MultiplyLimbs(limbs: seq<Int32>, milliseconds: Milli) returns (r: seq<Int32>)
    requires forall i :: 0 <= i < |limbs| ==> 0 <= limbs[i] < 0x1_0000
    requires Weighted(limbs, 3) * 1000 + milliseconds <= 0xffff_ffff_ffff
    ensures |r| == 3 && forall i :: 0 <= i < 3 ==> 0 <= r[i] < 0x1_0000
    ensures Weighted(r, 3) == Weighted(limbs, 3) * 1000 + milliseconds
  {
    r := [0, 0, 0];
    var carry: Int32 := milliseconds;
    for i := 0 to 3
      invariant |r| == 3 && 0 <= carry < 1000 && forall j :: 0 <= j < 3 ==> 0 <= r[j] < 0x1_0000
      invariant Weighted(r, i) + carry * Scale(i) == Weighted(limbs, i) * 1000 + milliseconds
    {
      var product: Int32 := Limb(limbs, i) * 1000 + carry;
      r := r[i := product % 0x1_0000];
      carry := product / 0x1_0000;
    }
  }

  lemma SplitStep(v: nat, limbs: seq<Int32>, rest: string, quotient: string, remainder: Int32)
    requires |limbs| <= 2 && Split(v, limbs, rest) && AllDigits(quotient)
    requires 0 <= remainder < 0x1_0000 && Value(rest) == Value(quotient) * 0x1_0000 + remainder
    requires v <= 281474976710 && (|quotient| > 0 ==> quotient[0] != '0')
    ensures Split(v, limbs + [remainder], quotient)
    ensures |limbs| == 2 ==> quotient == ""
  {
    if |limbs| == 2 && |quotient| > 0 {
      LeadingDigit(quotient);
    }
  }

  /** A numeral that starts with a digit other than 0 is not zero. */
  lemma LeadingDigit(s: string)
    requires AllDigits(s) && |s| > 0 && s[0] != '0'
    ensures Value(s) > 0
  {
    PrefixIsSmaller(s, 1);
    assert s[..1][..0] == [];
    assert Value(s[..1]) == DigitOf(s[0]);
  }

  // ---- agreement -----------------------------------------------------------

  /** C accepts the same DateTimes as PHP does of an overriding class, and puts the same
      six bytes first. */
  lemma FieldsAgree(sec: Int64, us: Micro, randb: RandB)
    ensures DateTimeFields(sec, us).Some? <==> ForeignBytes(sec, us).Some?
    ensures DateTimeFields(sec, us).Some? <==> 0 <= sec && sec * 1000 + us / 1000 <= 0xffff_ffff_ffff
    ensures DateTimeFields(sec, us).Some? ==>
      var (ms, sub) := DateTimeFields(sec, us).value;
      sub < 4096 && V7(ms, sub, randb)[..6] == ForeignBytes(sec, us).value
  {
    if DateTimeFields(sec, us).Some? {
      var (ms, sub) := DateTimeFields(sec, us).value;
      PackMillisecondsValue(sec, us / 1000);
      V7Front(ms, sub, randb);
      BeInjective(V7(ms, sub, randb)[..6], ForeignBytes(sec, us).value);
    }
  }

  /** Any six bytes that hold the milliseconds big-endian, as packV7DecimalSeconds
      returns them, are those of the limb packer and of the C layout. */
  lemma SixBytesAgree(sec: Int64, us: Micro, randb: RandB, s: seq<byte>)
    requires 0 <= sec && |s| == 6 && Be(s) == sec * 1000 + us / 1000
    ensures s == PackMilliseconds(sec, us / 1000)
    ensures DateTimeFields(sec, us).Some? &&
      var (ms, sub) := DateTimeFields(sec, us).value;
      sub < 4096 && s == V7(ms, sub, randb)[..6]
  {
    BeBound(s);
    Pow256Values();
    PackMillisecondsValue(sec, us / 1000);
    BeInjective(s, PackMilliseconds(sec, us / 1000));
    FieldsAgree(sec, us, randb);
  }

  /** DateTime::format('U') */
  function UnixText(sec: Int64): string {
    if sec < 0 then "-" + DecimalOf(-(sec as int)) else DecimalOf(sec)
  }

  /** v7TimestampBytes on a built-in DateTime: what C accepts, with the same six bytes
      first, whatever the random part. */
  method BuiltInBytes(sec: Int64, us: Micro, ghost randb: RandB) returns (res: Option<seq<byte>>)
    ensures res.Some? <==> DateTimeFields(sec, us).Some?
    ensures res.Some? ==>
      var (ms, sub) := DateTimeFields(sec, us).value;
      sub < 4096 && V7(ms, sub, randb)[..6] == res.value
  {
    if sec >= 0 {
      ValueOfDecimal(sec);
    }
    res := PackDecimalSeconds(UnixText(sec), us / 1000);
    FieldsAgree(sec, us, randb);
    if res.Some? {
      SixBytesAgree(sec, us, randb, res.value);
    }
  }

  lemma IntFieldsAgree(ms: Int64, randb: RandB)
    ensures IntFields(ms).Some? <==> IntBytes(ms).Some?
    ensures IntFields(ms).Some? ==> IntFields(ms).value == (ms, 0) && V7(ms, 0, randb)[..6] == IntBytes(ms).value
  {
    if IntFields(ms).Some? {
      PackMillisecondsValue(ms / 1000, ms % 1000);
      V7Front(ms, 0, randb);
      BeInjective(V7(ms, 0, randb)[..6], IntBytes(ms).value);
    }
  }

  lemma V7Front(ms: nat, sub: nat, randb: RandB)
    requires ms < TWO48 && sub < 4096
    ensures Be(V7(ms, sub, randb)[..6]) == ms
  {
    hide Be;
    V7High(ms, sub, randb);
    var b := V7(ms, sub, randb);
    assert b[..8] == b[..6] + b[6..8];
    BeConcat(b[..6], b[6..8]);
    PairBound(b[6..8]);
  }

  lemma PairBound(s: seq<byte>)
    requires |s| == 2
    ensures Be(s) == (s[0] as int) * 256 + s[1] && Pow(256, 2) == 0x1_0000
  {
    OneDigit(256, s[..1]);
  }
}
