/** UUID byte layouts of fast_uuid.c and the compat layer's byte orders. */
module Layout {
  import opened Positional
  import opened Bytes

  const TWO12 := 0x1000
  const TWO28 := 0x1000_0000
  const TWO32 := 0x1_0000_0000
  const TWO48 := 0x1_0000_0000_0000
  const TWO60 := 0x1000_0000_0000_0000
  const TWO62 := 0x4000_0000_0000_0000

  type Node = s: seq<byte> | |s| == 6 witness seq(6, _ => 0)
  type ClockSeq = x: int | 0 <= x < 0x4000
  type Tail = s: seq<byte> | |s| == 8 witness seq(8, _ => 0)
  type LocalId = x: int | 0 <= x < 0x1_0000_0000
  /** A 60-bit timestamp, and the 62-bit rand_b field. */
  type Time60 = x: int | 0 <= x < 0x1000_0000_0000_0000
  type RandB = x: int | 0 <= x < 0x4000_0000_0000_0000

  // ---- layouts -------------------------------------------------------------

  /** Bytes 0..7 of version 1: time_low, time_mid, version and time_hi. */
  function TimeV1(g: Word): (s: seq<byte>)
    ensures |s| == 8
  {
    var tl := g % TWO32;
    var tm := g / TWO32 % 0x1_0000;
    var th := g / TWO48 % 0x1000 + 0x1000;
    [tl / 0x100_0000, tl / 0x1_0000 % 256, tl / 0x100 % 256, tl % 256,
     tm / 256, tm % 256, th / 256, th % 256]
  }

  /** Bytes 0..7 of version 6: the timestamp most significant first. */
  function TimeV6(g: Word): (s: seq<byte>)
    ensures |s| == 8
  {
    var t := g % TWO60;
    [t / 0x10_0000_0000_0000, t / 0x1000_0000_0000 % 256, t / 0x10_0000_0000 % 256,
     t / 0x1000_0000 % 256, t / 0x10_0000 % 256, t / 0x1000 % 256,
     0x60 + t / 256 % 16, t % 256]
  }

  /** Bytes 8..15: variant, clock sequence and node. */
  function TailBytes(node: Node, cs: ClockSeq): Tail {
    [0x80 + cs / 256, cs % 256] + node
  }

  function V1(g: Word, tail: Tail): Uuid { TimeV1(g) + tail }

  function V6(g: Word, tail: Tail): Uuid { TimeV6(g) + tail }

  /** Version 2 from a version 1 layout: time_low becomes the local identifier,
      clock_seq_low the domain. */
  function StampV2(b: Uuid, id: LocalId, domain: byte): Uuid {
    [id / 0x100_0000, id / 0x1_0000 % 256, id / 0x100 % 256, id % 256] + b[4..6] +
    [b[6] % 16 + 0x20, b[7], b[8], domain] + b[10..]
  }

  function V7(ms: nat, sub: nat, randb: RandB): Uuid {
    [ms / 0x100_0000_0000 % 256, ms / 0x1_0000_0000 % 256, ms / 0x100_0000 % 256,
     ms / 0x1_0000 % 256, ms / 0x100 % 256, ms % 256,
     0x70 + sub / 256 % 16, sub % 256,
     0x80 + randb / 0x100_0000_0000_0000, randb / 0x1_0000_0000_0000 % 256,
     randb / 0x100_0000_0000 % 256, randb / 0x1_0000_0000 % 256, randb / 0x100_0000 % 256,
     randb / 0x1_0000 % 256, randb / 0x100 % 256, randb % 256]
  }

  /** The version 7 layout of a 60-bit time key (ms << 12 | sub). */
  function V7OfKey(key: Time60, randb: RandB): Uuid {
    V7(key / TWO12, key % TWO12, randb)
  }

  // ---- fields read back ----------------------------------------------------

  /** Fields::getClockSeq and getNode. */
  function ClockSeqOf(b: Uuid): ClockSeq { (b[8] as int) % 0x40 * 256 + b[9] }

  function NodeOf(b: Uuid): Node { b[10..] }

  lemma TailReadsBack(time: seq<byte>, node: Node, cs: ClockSeq)
    requires |time| == 8
    ensures var b := time + TailBytes(node, cs); ClockSeqOf(b) == cs && NodeOf(b) == node && b[8] / 0x40 == 2
  {
    var b := time + TailBytes(node, cs);
    assert b[8] == 0x80 + cs / 256 && b[9] == cs % 256;
    assert b[10..] == node;
  }

  /** Version 2 keeps node, variant and the upper clock sequence, and shows identifier and domain. */
  lemma V2ReadsBack(g: Time60, tail: Tail, id: LocalId, domain: byte)
    ensures var b := StampV2(V1(g, tail), id, domain);
      && (b[0] as int) * 0x100_0000 + (b[1] as int) * 0x1_0000 + (b[2] as int) * 0x100 + b[3] == id
      && b[9] == domain && b[6] / 16 == 2 && b[8] == tail[0] && b[10..] == tail[2..]
  {
    hide TimeV1;
    var q := id / 256;
    assert q / 256 == id / 0x1_0000 && q / 256 / 256 == id / 0x100_0000;
    var b := StampV2(V1(g, tail), id, domain);
    assert V1(g, tail)[10..] == tail[2..];
    assert b[10..] == tail[2..];
  }

  // ---- numeric values ------------------------------------------------------

  lemma Be8(s: seq<byte>)
    requires |s| == 8
    ensures Be(s) == (s[0] as int) * 0x100_0000_0000_0000 + (s[1] as int) * 0x1_0000_0000_0000 +
      (s[2] as int) * 0x100_0000_0000 + (s[3] as int) * 0x1_0000_0000 +
      (s[4] as int) * 0x100_0000 + (s[5] as int) * 0x1_0000 + (s[6] as int) * 0x100 + s[7]
  {
    assert s[..7][..6] == s[..6];
    assert s[..6][..5] == s[..5];
    assert s[..5][..4] == s[..4];
    assert s[..4][..3] == s[..3];
    assert s[..3][..2] == s[..2];
    assert s[..2][..1] == s[..1];
    OneDigit(256, s[..1]);
    assert Be(s[..2]) == Be(s[..1]) * 256 + s[1];
    assert Be(s[..3]) == Be(s[..2]) * 256 + s[2];
    assert Be(s[..4]) == Be(s[..3]) * 256 + s[3];
    assert Be(s[..5]) == Be(s[..4]) * 256 + s[4];
    assert Be(s[..6]) == Be(s[..5]) * 256 + s[5];
    assert Be(s[..7]) == Be(s[..6]) * 256 + s[6];
  }

  /** Six bytes are the base-256 digits of a 48-bit number. */
  lemma Digits48(x: nat)
    requires x < TWO48
    ensures x == (x / 0x100_0000_0000 % 256) * 0x100_0000_0000 + (x / 0x1_0000_0000 % 256) * 0x1_0000_0000 +
      (x / 0x100_0000 % 256) * 0x100_0000 + (x / 0x1_0000 % 256) * 0x1_0000 + (x / 0x100 % 256) * 0x100 + x % 256
  {
    DivDiv(x, 0x100, 0x100);
    DivDiv(x, 0x1_0000, 0x100);
    DivDiv(x, 0x100_0000, 0x100);
    DivDiv(x, 0x1_0000_0000, 0x100);
  }

  /** The bytes of rand_b, the six bits under the variant first. */
  lemma DigitsRandB(r: RandB)
    ensures r == (r / 0x100_0000_0000_0000) * 0x100_0000_0000_0000 + (r / 0x1_0000_0000_0000 % 256) * TWO48 +
      (r / 0x100_0000_0000 % 256) * 0x100_0000_0000 + (r / 0x1_0000_0000 % 256) * 0x1_0000_0000 +
      (r / 0x100_0000 % 256) * 0x100_0000 + (r / 0x1_0000 % 256) * 0x1_0000 + (r / 0x100 % 256) * 0x100 + r % 256
  {
    DivDiv(r, 0x100, 0x100);
    DivDiv(r, 0x1_0000, 0x100);
    DivDiv(r, 0x100_0000, 0x100);
    DivDiv(r, 0x1_0000_0000, 0x100);
    DivDiv(r, 0x100_0000_0000, 0x100);
    DivDiv(r, 0x1_0000_0000_0000, 0x100);
  }

  lemma V7High(ms: nat, sub: nat, randb: RandB)
    requires ms < TWO48 && sub < TWO12
    ensures Be(V7(ms, sub, randb)[..8]) == ms * 0x1_0000 + 0x7000 + sub
  {
    hide Be;
    Be8(V7(ms, sub, randb)[..8]);
    Digits48(ms);
  }

  lemma V7Low(ms: nat, sub: nat, randb: RandB)
    ensures Be(V7(ms, sub, randb)[8..]) == 0x8000_0000_0000_0000 + randb
  {
    hide Be;
    var b := V7(ms, sub, randb)[8..];
    Be8(b);
    DigitsRandB(randb);
  }

  lemma BeHalves(b: Uuid)
    ensures Be(b) == Be(b[..8]) * 0x1_0000_0000_0000_0000 + Be(b[8..])
  {
    BeConcat(b[..8], b[8..]);
    assert b == b[..8] + b[8..];
    Pow256Values();
  }

  /** The number a version 7 UUID counts: time key and rand_b side by side. */
  function V7Number(key: Time60, randb: RandB): nat { key * TWO62 + randb }

  /** memcmp on version 7 UUIDs is the order of (time key, rand_b). */
  lemma V7Order(k: Time60, r: RandB, k': Time60, r': RandB)
    ensures MemLess(V7OfKey(k, r), V7OfKey(k', r')) <==> V7Number(k, r) < V7Number(k', r')
  {
    hide Be, V7, MemLess;
    V7High(k / TWO12, k % TWO12, r);
    V7Low(k / TWO12, k % TWO12, r);
    V7High(k' / TWO12, k' % TWO12, r');
    V7Low(k' / TWO12, k' % TWO12, r');
    BeHalves(V7OfKey(k, r));
    BeHalves(V7OfKey(k', r'));
    MemLessIsNumeric(V7OfKey(k, r), V7OfKey(k', r'));
    KeyOrder(k, k');
  }

  /** The version nibble between milliseconds and fraction does not disturb order. */
  lemma KeyOrder(k: Time60, k': Time60)
    ensures var h := k / TWO12 * 0x1_0000 + 0x7000 + k % TWO12;
      var h' := k' / TWO12 * 0x1_0000 + 0x7000 + k' % TWO12;
      (h < h' <==> k < k') && (h == h' <==> k == k')
  {
  }

  lemma MemLessPrefix(a: seq<byte>, b: seq<byte>, x: seq<byte>, y: seq<byte>)
    requires |a| == |b| && |x| == |y| && MemLess(a, b)
    ensures MemLess(a + x, b + y)
  {
    var i :| 0 <= i < |a| && a[..i] == b[..i] && a[i] < b[i];
    assert (a + x)[..i] == a[..i] && (b + y)[..i] == b[..i];
    assert (a + x)[i] < (b + y)[i];
  }

  // ---- version 6 -----------------------------------------------------------

  /** The 60-bit timestamp of a version 6 byte string. */
  function TimestampV6(b: Uuid): Time60 {
    (((((b[0] as int) * 256 + b[1]) * 256 + b[2]) * 256 + b[3]) * 256 + b[4]) * 0x10_0000 +
    (b[5] as int) * TWO12 + (b[6] as int) % 16 * 256 + b[7]
  }

  lemma V6Value(b: Uuid)
    requires b[6] / 16 == 6
    ensures Be(b[..8]) == TimestampV6(b) / TWO12 * 0x1_0000 + 0x6000 + TimestampV6(b) % TWO12
  {
    hide Be;
    Be8(b[..8]);
    var hi := ((((b[0] as int) * 256 + b[1]) * 256 + b[2]) * 256 + b[3]) * 0x1_0000 + (b[4] as int) * 256 + b[5];
    var lo := (b[6] as int) % 16 * 256 + b[7];
    assert TimestampV6(b) == hi * TWO12 + lo;
  }

  /** Version 6 UUIDs sort as their timestamps, whatever clock sequence and node. */
  lemma V6SortsByTime(a: Uuid, b: Uuid)
    requires a[6] / 16 == 6 && b[6] / 16 == 6 && TimestampV6(a) < TimestampV6(b)
    ensures MemLess(a, b)
  {
    hide Be, TimestampV6, MemLess;
    V6Value(a);
    V6Value(b);
    MemLessIsNumeric(a[..8], b[..8]);
    assert a == a[..8] + a[8..] && b == b[..8] + b[8..];
    MemLessPrefix(a[..8], b[..8], a[8..], b[8..]);
  }

  lemma DigitsV6(g: Time60)
    ensures g / TWO12 == (g / 0x10_0000_0000_0000) * 0x100_0000_0000 + (g / 0x1000_0000_0000 % 256) * 0x1_0000_0000 +
      (g / 0x10_0000_0000 % 256) * 0x100_0000 + (g / 0x1000_0000 % 256) * 0x1_0000 +
      (g / 0x10_0000 % 256) * 0x100 + g / TWO12 % 256
    ensures g % TWO12 == g / 256 % 16 * 256 + g % 256
  {
    DivDiv(g, 0x100, 0x10);
    DivDiv(g, 0x1000, 0x100);
    DivDiv(g, 0x10_0000, 0x100);
    DivDiv(g, 0x1000_0000, 0x100);
    DivDiv(g, 0x10_0000_0000, 0x100);
    DivDiv(g, 0x1000_0000_0000, 0x100);
  }

  /** The layout keeps the timestamp, and is version 6. */
  lemma V6Timestamp(g: Time60, t: Tail)
    ensures V6(g, t)[6] / 16 == 6 && TimestampV6(V6(g, t)) == g
  {
    var b := V6(g, t);
    assert forall i :: 0 <= i < 8 ==> b[i] == TimeV6(g)[i];
    assert g % TWO60 == g;
    V6Recomposes(b, g);
  }

  lemma V6Recomposes(b: Uuid, g: Time60)
    requires b[0] == g / 0x10_0000_0000_0000 && b[1] == g / 0x1000_0000_0000 % 256
    requires b[2] == g / 0x10_0000_0000 % 256 && b[3] == g / 0x1000_0000 % 256
    requires b[4] == g / 0x10_0000 % 256 && b[5] == g / 0x1000 % 256
    requires b[6] == 0x60 + g / 256 % 16 && b[7] == g % 256
    ensures TimestampV6(b) == g
  {
    DigitsV6(g);
    assert (b[6] as int) % 16 * 256 + b[7] == g % TWO12;
  }

  // ---- OrderedTimeCodec ----------------------------------------------------

  /** getVersion() of the native core. */
  function Version(b: Uuid): Option<nat> {
    if b == seq(16, _ => 0) || b == seq(16, _ => 0xff) || b[8] / 0x40 != 2 then None
    else Some(b[6] / 16)
  }

  lemma VersionNibble(b: Uuid)
    ensures Version(b) == Some(1) ==> b[6] / 16 == 1
  {
  }

  /** time_hi, time_mid, time_low first; only for version 1. */
  function EncodeOrdered(b: Uuid): Option<Uuid> {
    if Version(b) != Some(1) then None
    else Some([b[6], b[7], b[4], b[5], b[0], b[1], b[2], b[3]] + b[8..])
  }

  function DecodeOrdered(b: seq<byte>): Option<Uuid> {
    if |b| != 16 then None
    else
      var restored: Uuid := [b[4], b[5], b[6], b[7], b[2], b[3], b[0], b[1]] + b[8..];
      if Version(restored) != Some(1) then None else Some(restored)
  }

  /** Encoding succeeds exactly on version 1, and decoding undoes it. */
  lemma OrderedRoundTrip(b: Uuid)
    ensures EncodeOrdered(b).Some? <==> b[6] / 16 == 1 && b[8] / 0x40 == 2
    ensures EncodeOrdered(b).Some? ==> DecodeOrdered(EncodeOrdered(b).value) == Some(b)
  {
    if b[6] / 16 == 1 {
      assert b[6] != (seq<byte>(16, _ => 0))[6];
      assert b[6] != (seq<byte>(16, _ => 0xff))[6];
    }
    if EncodeOrdered(b).Some? {
      var e := EncodeOrdered(b).value;
      assert [e[4], e[5], e[6], e[7], e[2], e[3], e[0], e[1]] + e[8..] == b;
    }
  }

  /** Encoding undoes decoding: it is onto exactly the strings that decode. */
  lemma OrderedRoundTripBack(e: seq<byte>)
    ensures DecodeOrdered(e).Some? ==> EncodeOrdered(DecodeOrdered(e).value) == Some(e)
  {
    if DecodeOrdered(e).Some? {
      var b := DecodeOrdered(e).value;
      assert [b[6], b[7], b[4], b[5], b[0], b[1], b[2], b[3]] + b[8..] == e;
    }
  }

  /** The 60-bit timestamp of a version 1 byte string. */
  function TimestampV1(b: Uuid): Time60 {
    ((b[6] as int) % 16 * 256 + b[7]) * TWO48 + ((b[4] as int) * 256 + b[5]) * TWO32 +
    (b[0] as int) * 0x100_0000 + (b[1] as int) * 0x1_0000 + (b[2] as int) * 0x100 + b[3]
  }

  /** Version and timestamp come first, most significant digit first; the rest follows as
      it was. */
  lemma OrderedValue(b: Uuid)
    requires EncodeOrdered(b).Some?
    ensures Be(EncodeOrdered(b).value[..8]) == TWO60 + TimestampV1(b)
    ensures EncodeOrdered(b).value[8..] == b[8..]
  {
    Be8(EncodeOrdered(b).value[..8]);
  }

  /** memcmp on encodings follows the timestamps whenever these differ. */
  lemma OrderedSortsByTime(a: Uuid, b: Uuid)
    requires EncodeOrdered(a).Some? && EncodeOrdered(b).Some?
    requires TimestampV1(a) != TimestampV1(b)
    ensures MemLess(EncodeOrdered(a).value, EncodeOrdered(b).value) <==> TimestampV1(a) < TimestampV1(b)
  {
    var x, y := EncodeOrdered(a).value, EncodeOrdered(b).value;
    OrderedValue(a);
    OrderedValue(b);
    MemLessIsNumeric(x[..8], y[..8]);
    MemLessIsNumeric(y[..8], x[..8]);
    assert x == x[..8] + x[8..] && y == y[..8] + y[8..];
    if TimestampV1(a) < TimestampV1(b) {
      MemLessPrefix(x[..8], y[..8], x[8..], y[8..]);
    } else {
      MemLessPrefix(y[..8], x[..8], y[8..], x[8..]);
      MemLessIsNumeric(x, y);
      MemLessIsNumeric(y, x);
    }
  }

  /** The layout keeps the timestamp, and is a version 1 UUID. */
  lemma V1Timestamp(g: Time60, tail: Tail)
    requires tail[0] / 0x40 == 2
    ensures TimestampV1(V1(g, tail)) == g && Version(V1(g, tail)) == Some(1)
  {
    var b := V1(g, tail);
    assert forall i :: 0 <= i < 8 ==> b[i] == TimeV1(g)[i];
    assert b[8] == tail[0];
    var th := g / TWO48;
    assert th % 0x1000 == th && b[6] == (th + 0x1000) / 256 && b[7] == (th + 0x1000) % 256;
    V1Recomposes(b, g);
    OrderedRoundTrip(b);
  }

  lemma V1Recomposes(b: Uuid, g: Time60)
    requires var tl := g % TWO32;
      b[0] == tl / 0x100_0000 && b[1] == tl / 0x1_0000 % 256 && b[2] == tl / 0x100 % 256 && b[3] == tl % 256
    requires b[4] == g / TWO32 % 0x1_0000 / 256 && b[5] == g / TWO32 % 0x1_0000 % 256
    requires b[6] == (g / TWO48 + 0x1000) / 256 && b[7] == (g / TWO48 + 0x1000) % 256
    ensures TimestampV1(b) == g && b[6] / 16 == 1
  {
    var tl, th := g % TWO32, g / TWO48;
    var q := tl / 256;
    assert q / 256 == tl / 0x1_0000 && q / 256 / 256 == tl / 0x100_0000;
    assert g / TWO32 / 0x1_0000 == th;
    assert b[6] == 0x10 + th / 256 && b[7] == th % 256;
  }

  // ---- version 2 -----------------------------------------------------------

  /** The part of the timestamp version 2 shows: time_mid and time_hi. */
  function VisibleV2(b: Uuid): nat {
    ((b[6] as int) % 16 * 256 + b[7]) * 0x1_0000 + (b[4] as int) * 256 + b[5]
  }

  /** Overwriting time_low and clock_seq_low leaves exactly the upper 28 bits. */
  lemma V2Visible(g: Time60, tail: Tail, id: LocalId, domain: byte)
    ensures VisibleV2(StampV2(V1(g, tail), id, domain)) == g / TWO32
  {
    var b := V1(g, tail);
    var s := StampV2(b, id, domain);
    assert s[4] == b[4] == TimeV1(g)[4] && s[5] == b[5] == TimeV1(g)[5] && s[7] == b[7] == TimeV1(g)[7];
    assert s[6] == b[6] % 16 + 0x20 && b[6] == TimeV1(g)[6];
    V2Arith(g);
  }

  lemma V2Arith(g: Time60)
    ensures g / TWO48 % 0x1000 == g / TWO48
    ensures (g / TWO48 + 0x1000) / 256 % 16 * 256 + (g / TWO48 + 0x1000) % 256 == g / TWO48
    ensures g / TWO32 == g / TWO48 * 0x1_0000 + g / TWO32 % 0x1_0000
  {
    assert g / TWO32 / 0x1_0000 == g / TWO48;
  }
}
