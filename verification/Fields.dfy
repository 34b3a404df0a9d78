/** The compat layer's hex slicing: version 1 to 6 and back, and getTimestamp. */
module Fields {
  import opened Positional
  import opened Bytes
  import opened Layout
  import opened Hex

  // ---- hex digits as nibbles -----------------------------------------------

  /** The k-th hex digit's value. */
  function Nib(b: Uuid, k: nat): nat
    requires k < 32
  {
    if k % 2 == 0 then b[k / 2] / 16 else b[k / 2] % 16
  }

  ghost predicate Spells(h: string, ns: seq<nat>) {
    |h| == |ns| && forall k :: 0 <= k < |ns| ==> ns[k] < 16 && h[k] == HexDigit(ns[k])
  }

  function NibSlice(b: Uuid, from: nat, to: nat): seq<nat>
    requires from <= to <= 32
  {
    seq<nat>(to - from, k requires 0 <= k < to - from => Nib(b, from + k))
  }

  lemma SliceSpells(b: Uuid, from: nat, to: nat)
    requires from <= to <= 32
    ensures Spells(Hex32(b)[from..to], NibSlice(b, from, to))
  {
    hide HexDigit;
    var h, ns := Hex32(b)[from..to], NibSlice(b, from, to);
    forall k | 0 <= k < to - from
      ensures ns[k] < 16 && h[k] == HexDigit(ns[k])
    {
      assert ns[k] == Nib(b, from + k) && h[k] == Hex32(b)[from + k];
    }
  }

  lemma SpellsConcat(g: string, ms: seq<nat>, h: string, ns: seq<nat>)
    requires Spells(g, ms) && Spells(h, ns)
    ensures Spells(g + h, ms + ns)
  {
    hide HexDigit;
  }

  function PairUp(ns: seq<nat>): Uuid
    requires |ns| == 32 && forall k :: 0 <= k < 32 ==> ns[k] < 16
  {
    seq<byte>(16, i requires 0 <= i < 16 => ns[2 * i] * 16 + ns[2 * i + 1])
  }

  /** Uuid::fromHexadecimal on 32 spelled digits. */
  lemma SpelledParses(h: string, ns: seq<nat>)
    requires Spells(h, ns) && |ns| == 32
    ensures Parse(h) == Some(PairUp(ns))
  {
    hide HexDigit, Nibble;
    forall i | 0 <= i < 16
      ensures ByteAt(h, 2 * i) == Some(PairUp(ns)[i])
    {
      NibbleOfDigit(ns[2 * i]);
      NibbleOfDigit(ns[2 * i + 1]);
    }
    assert ParseCore(h).value == PairUp(ns);
    CoreNeedsNoStrip(h);
  }

  function FromHexadecimal(h: string): Option<Uuid> {
    if |h| == 32 then Parse(h) else None
  }

  // ---- version 1 <-> 6 -----------------------------------------------------

  /** UuidV6::fromUuidV1 */
  function V6FromV1(b: Uuid): Option<Uuid> {
    var hex := Hex32(b);
    var ts := hex[13..16] + hex[8..12] + hex[0..8];
    FromHexadecimal(ts[..12] + "6" + ts[12..] + hex[16..32])
  }

  /** UuidV6::toUuidV1 */
  function V1FromV6(b: Uuid): Option<Uuid> {
    var hex := Hex32(b);
    var ts := hex[0..12] + hex[13..16];
    var timeHi, timeMid, timeLow := ts[..3], ts[3..7], ts[7..];
    FromHexadecimal(timeLow + timeMid + "1" + timeHi + hex[16..32])
  }

  /** The bytes those slices make. */
  function Ordered6(b: Uuid): Uuid {
    [b[6] % 16 * 16 + b[7] / 16, b[7] % 16 * 16 + b[4] / 16, b[4] % 16 * 16 + b[5] / 16, b[5] % 16 * 16 + b[0] / 16,
     b[0] % 16 * 16 + b[1] / 16, b[1] % 16 * 16 + b[2] / 16, 0x60 + b[2] % 16, b[3]] + b[8..]
  }

  function Ordered1(b: Uuid): Uuid {
    [b[3] % 16 * 16 + b[4] / 16, b[4] % 16 * 16 + b[5] / 16, b[5] % 16 * 16 + b[6] % 16, b[7],
     b[1] % 16 * 16 + b[2] / 16, b[2] % 16 * 16 + b[3] / 16, 0x10 + b[0] / 16, b[0] % 16 * 16 + b[1] / 16] + b[8..]
  }

  lemma V6FromV1Is(b: Uuid)
    ensures V6FromV1(b) == Some(Ordered6(b))
  {
    hide Hex32, HexDigit, Parse;
    var hex := Hex32(b);
    var ts := hex[13..16] + hex[8..12] + hex[0..8];
    var h := ts[..12] + "6" + ts[12..] + hex[16..32];
    var tn := NibSlice(b, 13, 16) + NibSlice(b, 8, 12) + NibSlice(b, 0, 8);
    var ns := tn[..12] + [6] + tn[12..] + NibSlice(b, 16, 32);
    SliceSpells(b, 13, 16);
    SliceSpells(b, 8, 12);
    SliceSpells(b, 0, 8);
    SliceSpells(b, 16, 32);
    SpellsConcat(hex[13..16], NibSlice(b, 13, 16), hex[8..12], NibSlice(b, 8, 12));
    SpellsConcat(hex[13..16] + hex[8..12], NibSlice(b, 13, 16) + NibSlice(b, 8, 12), hex[0..8], NibSlice(b, 0, 8));
    VersionSpells();
    SpellsConcat(ts[..12], tn[..12], "6", [6]);
    SpellsConcat(ts[..12] + "6", tn[..12] + [6], ts[12..], tn[12..]);
    SpellsConcat(ts[..12] + "6" + ts[12..], tn[..12] + [6] + tn[12..], hex[16..32], NibSlice(b, 16, 32));
    SpelledParses(h, ns);
    Ordered6Nibbles(b, ns);
  }

  lemma VersionSpells()
    ensures Spells("6", [6]) && Spells("1", [1])
  {
  }

  lemma Ordered6Nibbles(b: Uuid, ns: seq<nat>)
    requires |ns| == 32 && forall k :: 0 <= k < 32 ==> ns[k] < 16
    requires var tn := NibSlice(b, 13, 16) + NibSlice(b, 8, 12) + NibSlice(b, 0, 8);
      ns == tn[..12] + [6] + tn[12..] + NibSlice(b, 16, 32)
    ensures PairUp(ns) == Ordered6(b)
  {
    hide Nib;
    forall k | 0 <= k < 32 && k != 12
      ensures ns[k] == Nib(b, From6(k))
    {
    }
    Paired6(b, ns);
  }

  /** Which digit of version 1 the k-th digit of version 6 is, the version apart. */
  function From6(k: nat): (j: nat)
    requires k < 32
    ensures j < 32
  {
    if k < 3 then k + 13 else if k < 7 then k + 5 else if k < 12 then k - 7 else if k < 16 then k - 8 else k
  }

  /** The two digits of each byte. */
  lemma NibsOf(b: Uuid)
    ensures forall i :: 0 <= i < 16 ==> Nib(b, 2 * i) == b[i] / 16 && Nib(b, 2 * i + 1) == b[i] % 16
    ensures Nib(b, 0) == b[0] / 16 && Nib(b, 1) == b[0] % 16 && Nib(b, 2) == b[1] / 16 && Nib(b, 3) == b[1] % 16
    ensures Nib(b, 4) == b[2] / 16 && Nib(b, 5) == b[2] % 16 && Nib(b, 6) == b[3] / 16 && Nib(b, 7) == b[3] % 16
    ensures Nib(b, 8) == b[4] / 16 && Nib(b, 9) == b[4] % 16 && Nib(b, 10) == b[5] / 16 && Nib(b, 11) == b[5] % 16
    ensures Nib(b, 13) == b[6] % 16 && Nib(b, 14) == b[7] / 16 && Nib(b, 15) == b[7] % 16
  {
  }

  lemma Paired6(b: Uuid, ns: seq<nat>)
    requires |ns| == 32 && forall k :: 0 <= k < 32 ==> ns[k] < 16
    requires ns[12] == 6 && forall k :: 0 <= k < 32 && k != 12 ==> ns[k] == Nib(b, From6(k))
    ensures PairUp(ns) == Ordered6(b)
  {
    hide Nib;
    var p, o := PairUp(ns), Ordered6(b);
    NibsOf(b);
    assert ns[0] == Nib(b, 13) && ns[1] == Nib(b, 14) && ns[2] == Nib(b, 15) && ns[3] == Nib(b, 8);
    assert ns[4] == Nib(b, 9) && ns[5] == Nib(b, 10) && ns[6] == Nib(b, 11) && ns[7] == Nib(b, 0);
    assert ns[8] == Nib(b, 1) && ns[9] == Nib(b, 2) && ns[10] == Nib(b, 3) && ns[11] == Nib(b, 4);
    assert ns[13] == Nib(b, 5) && ns[14] == Nib(b, 6) && ns[15] == Nib(b, 7);
    assert p[0] == o[0] && p[1] == o[1] && p[2] == o[2] && p[3] == o[3];
    assert p[4] == o[4] && p[5] == o[5] && p[6] == o[6] && p[7] == o[7];
    forall i | 8 <= i < 16
      ensures p[i] == o[i]
    {
      assert From6(2 * i) == 2 * i && From6(2 * i + 1) == 2 * i + 1;
    }
  }

  lemma V1FromV6Is(b: Uuid)
    ensures V1FromV6(b) == Some(Ordered1(b))
  {
    hide Hex32, HexDigit, Parse;
    var hex := Hex32(b);
    var ts := hex[0..12] + hex[13..16];
    var tn := NibSlice(b, 0, 12) + NibSlice(b, 13, 16);
    var ns := tn[7..] + tn[3..7] + [1] + tn[..3] + NibSlice(b, 16, 32);
    SliceSpells(b, 0, 12);
    SliceSpells(b, 13, 16);
    SliceSpells(b, 16, 32);
    SpellsConcat(hex[0..12], NibSlice(b, 0, 12), hex[13..16], NibSlice(b, 13, 16));
    VersionSpells();
    SpellsConcat(ts[7..], tn[7..], ts[3..7], tn[3..7]);
    SpellsConcat(ts[7..] + ts[3..7], tn[7..] + tn[3..7], "1", [1]);
    SpellsConcat(ts[7..] + ts[3..7] + "1", tn[7..] + tn[3..7] + [1], ts[..3], tn[..3]);
    SpellsConcat(ts[7..] + ts[3..7] + "1" + ts[..3], tn[7..] + tn[3..7] + [1] + tn[..3],
                 hex[16..32], NibSlice(b, 16, 32));
    SpelledParses(ts[7..] + ts[3..7] + "1" + ts[..3] + hex[16..32], ns);
    Ordered1Nibbles(b, ns);
  }

  lemma Ordered1Nibbles(b: Uuid, ns: seq<nat>)
    requires |ns| == 32 && forall k :: 0 <= k < 32 ==> ns[k] < 16
    requires var tn := NibSlice(b, 0, 12) + NibSlice(b, 13, 16);
      ns == tn[7..] + tn[3..7] + [1] + tn[..3] + NibSlice(b, 16, 32)
    ensures PairUp(ns) == Ordered1(b)
  {
    hide Nib;
    forall k | 0 <= k < 32 && k != 12
      ensures ns[k] == Nib(b, From1(k))
    {
    }
    Paired1(b, ns);
  }

  /** Which digit of version 6 the k-th digit of version 1 is. */
  function From1(k: nat): (j: nat)
    requires k < 32
    ensures j < 32
  {
    if k < 5 then k + 7 else if k < 8 then k + 8 else if k < 12 then k - 5 else if 12 < k < 16 then k - 13 else k
  }

  lemma Paired1(b: Uuid, ns: seq<nat>)
    requires |ns| == 32 && forall k :: 0 <= k < 32 ==> ns[k] < 16
    requires ns[12] == 1 && forall k :: 0 <= k < 32 && k != 12 ==> ns[k] == Nib(b, From1(k))
    ensures PairUp(ns) == Ordered1(b)
  {
    hide Nib;
    var p, o := PairUp(ns), Ordered1(b);
    NibsOf(b);
    assert ns[0] == Nib(b, 7) && ns[1] == Nib(b, 8) && ns[2] == Nib(b, 9) && ns[3] == Nib(b, 10);
    assert ns[4] == Nib(b, 11) && ns[5] == Nib(b, 13) && ns[6] == Nib(b, 14) && ns[7] == Nib(b, 15);
    assert ns[8] == Nib(b, 3) && ns[9] == Nib(b, 4) && ns[10] == Nib(b, 5) && ns[11] == Nib(b, 6);
    assert ns[13] == Nib(b, 0) && ns[14] == Nib(b, 1) && ns[15] == Nib(b, 2);
    assert p[0] == o[0] && p[1] == o[1] && p[2] == o[2] && p[3] == o[3];
    assert p[4] == o[4] && p[5] == o[5] && p[6] == o[6] && p[7] == o[7];
    forall i | 8 <= i < 16
      ensures p[i] == o[i]
    {
      assert From1(2 * i) == 2 * i && From1(2 * i + 1) == 2 * i + 1;
    }
  }

  /** The conversions keep clock sequence, node and timestamp, and set the version. */
  lemma ConversionKeepsTime(b: Uuid)
    ensures V6FromV1(b).Some? && V1FromV6(b).Some?
    ensures var c := V6FromV1(b).value; c[6] / 16 == 6 && c[8..] == b[8..] && TimestampV6(c) == TimestampV1(b)
    ensures var c := V1FromV6(b).value; c[6] / 16 == 1 && c[8..] == b[8..] && TimestampV1(c) == TimestampV6(b)
  {
    hide V6FromV1, V1FromV6, Ordered6, Ordered1, TimestampV6, TimestampV1;
    V6FromV1Is(b);
    V1FromV6Is(b);
    Ordered6Time(b);
    Ordered1Time(b);
  }

  lemma Ordered6Time(b: Uuid)
    ensures var c := Ordered6(b); c[6] / 16 == 6 && c[8..] == b[8..] && TimestampV6(c) == TimestampV1(b)
  {
    var c := Ordered6(b);
    assert c[8..] == b[8..];
    Time6Sum(b[0], b[1], b[2], b[3], b[4], b[5], b[6], b[7]);
  }

  lemma Time6Sum(b0: byte, b1: byte, b2: byte, b3: byte, b4: byte, b5: byte, b6: byte, b7: byte)
    ensures (((((b6 % 16 * 16 + b7 / 16) as int * 256 + (b7 % 16 * 16 + b4 / 16)) * 256
        + (b4 % 16 * 16 + b5 / 16)) * 256
        + (b5 % 16 * 16 + b0 / 16)) * 256 + (b0 % 16 * 16 + b1 / 16)) * 0x10_0000
        + (b1 % 16 * 16 + b2 / 16) as int * TWO12 + b2 % 16 * 256 + b3
      == ((b6 as int) % 16 * 256 + b7) * TWO48 + ((b4 as int) * 256 + b5) * TWO32
        + (b0 as int) * 0x100_0000 + (b1 as int) * 0x1_0000 + (b2 as int) * 0x100 + b3
  {
  }

  lemma Ordered1Time(b: Uuid)
    ensures var c := Ordered1(b); c[6] / 16 == 1 && c[8..] == b[8..] && TimestampV1(c) == TimestampV6(b)
  {
    var c := Ordered1(b);
    assert c[8..] == b[8..];
  }

  /** On UUIDs of their versions the conversions are inverse both ways. */
  lemma ConversionsAreInverse(b: Uuid)
    ensures V6FromV1(b).Some? && (b[6] / 16 == 1 ==> V1FromV6(V6FromV1(b).value) == Some(b))
    ensures V1FromV6(b).Some? && (b[6] / 16 == 6 ==> V6FromV1(V1FromV6(b).value) == Some(b))
  {
    hide V6FromV1, V1FromV6;
    V6FromV1Is(b);
    V1FromV6Is(b);
    V6FromV1Is(Ordered1(b));
    V1FromV6Is(Ordered6(b));
    if b[6] / 16 == 1 { Undo6(b); }
    if b[6] / 16 == 6 { Undo1(b); }
  }

  lemma Undo6(b: Uuid)
    requires b[6] / 16 == 1
    ensures Ordered1(Ordered6(b)) == b
  {
    var c := Ordered6(b);
    var d := Ordered1(c);
    assert c[3] % 16 == b[0] / 16 && c[4] / 16 == b[0] % 16 && c[4] % 16 == b[1] / 16 && c[5] / 16 == b[1] % 16;
    assert c[5] % 16 == b[2] / 16 && c[6] % 16 == b[2] % 16 && c[7] == b[3];
    assert c[1] % 16 == b[4] / 16 && c[2] / 16 == b[4] % 16 && c[2] % 16 == b[5] / 16 && c[3] / 16 == b[5] % 16;
    assert c[0] / 16 == b[6] % 16 && c[0] % 16 == b[7] / 16 && c[1] / 16 == b[7] % 16;
    SameFields(d, b);
  }

  lemma Undo1(b: Uuid)
    requires b[6] / 16 == 6
    ensures Ordered6(Ordered1(b)) == b
  {
    var c := Ordered1(b);
    var d := Ordered6(c);
    assert c[6] % 16 == b[0] / 16 && c[7] / 16 == b[0] % 16 && c[7] % 16 == b[1] / 16 && c[4] / 16 == b[1] % 16;
    assert c[4] % 16 == b[2] / 16 && c[5] / 16 == b[2] % 16 && c[5] % 16 == b[3] / 16 && c[0] / 16 == b[3] % 16;
    assert c[0] % 16 == b[4] / 16 && c[1] / 16 == b[4] % 16 && c[1] % 16 == b[5] / 16 && c[2] / 16 == b[5] % 16;
    assert c[2] % 16 == b[6] % 16 && c[3] == b[7];
    SameFields(d, b);
  }

  lemma SameFields(a: Uuid, b: Uuid)
    requires a[0] == b[0] && a[1] == b[1] && a[2] == b[2] && a[3] == b[3]
    requires a[4] == b[4] && a[5] == b[5] && a[6] == b[6] && a[7] == b[7] && a[8..] == b[8..]
    ensures a == b
  {
    assert a[..8] == b[..8];
    assert a == a[..8] + a[8..] && b == b[..8] + b[8..];
  }

  lemma V6Injective(a: Uuid, b: Uuid)
    requires a[6] / 16 == 6 && b[6] / 16 == 6 && TimestampV6(a) == TimestampV6(b) && a[8..] == b[8..]
    ensures a == b
  {
    hide TimestampV6, Be;
    V6Value(a);
    V6Value(b);
    BeInjective(a[..8], b[..8]);
    assert a == a[..8] + a[8..] && b == b[..8] + b[8..];
  }

  /** Slicing hex sends the C layout of version 1 to the C layout of version 6. */
  lemma SlicesMatchLayouts(g: Time60, tail: Tail)
    requires tail[0] / 0x40 == 2
    ensures V6FromV1(V1(g, tail)) == Some(V6(g, tail))
  {
    hide V6FromV1, V1FromV6, TimestampV6, TimestampV1, TimeV1, TimeV6, Version;
    V1Timestamp(g, tail);
    V6Timestamp(g, tail);
    ConversionKeepsTime(V1(g, tail));
    assert V1(g, tail)[8..] == tail && V6(g, tail)[8..] == tail;
    V6Injective(V6FromV1(V1(g, tail)).value, V6(g, tail));
  }

  // ---- getTimestamp --------------------------------------------------------

  /** The number a hex string denotes. */
  function HexValue(s: string): int {
    if |s| == 0 then 0 else HexValue(s[..|s| - 1]) * 16 + Nibble(s[|s| - 1])
  }

  lemma {:induction false} SpelledValue(h: string, ns: seq<nat>)
    requires Spells(h, ns)
    ensures HexValue(h) == Number(16, ns)
  {
    hide HexDigit, Nibble;
    if |h| > 0 {
      var n := |h| - 1;
      SpelledValue(h[..n], ns[..n]);
      NibbleOfDigit(ns[n]);
    }
  }

  /** Fields::getTimestamp for the version nibble v. */
  function GetTimestamp(b: Uuid): string {
    var hex := Hex32(b);
    var v := b[6] / 16;
    if v == 6 then hex[0..12] + hex[13..16]
    else if v == 7 then "000" + hex[0..12]
    else if v == 2 then hex[13..16] + hex[8..12] + "00000000"
    else hex[13..16] + hex[8..12] + hex[0..8]
  }

  /** Digits of whole bytes denote the bytes' big-endian number. */
  lemma {:induction false} NibBytes(b: Uuid, i: nat, j: nat)
    requires i <= j <= 16
    ensures Number(16, NibSlice(b, 2 * i, 2 * j)) == Be(b[i..j])
    decreases j
  {
    var ns := NibSlice(b, 2 * i, 2 * j);
    if i < j {
      NibBytes(b, i, j - 1);
      var n := |ns|;
      assert ns[..n - 1][..n - 2] == NibSlice(b, 2 * i, 2 * (j - 1));
      assert ns[n - 2] == Nib(b, 2 * j - 2) && ns[n - 1] == Nib(b, 2 * j - 1);
      assert (2 * j - 2) / 2 == j - 1 && (2 * j - 1) / 2 == j - 1;
      assert b[i..j][..j - i - 1] == b[i..j - 1];
    }
  }

  /** The digits after the version nibble. */
  lemma ThreeNibs(b: Uuid)
    ensures Number(16, NibSlice(b, 13, 16)) == (b[6] as int) % 16 * 256 + b[7]
  {
    var ns := NibSlice(b, 13, 16);
    assert ns[0] == Nib(b, 13) && ns[1] == Nib(b, 14) && ns[2] == Nib(b, 15);
    assert ns[0] == b[6] % 16 && ns[1] == b[7] / 16 && ns[2] == b[7] % 16;
    assert ns[..2][..1] == ns[..1];
    OneDigit(16, ns[..1]);
    assert Number(16, ns[..2]) == ns[0] * 16 + ns[1];
  }

  lemma SixBytes(b: Uuid)
    ensures Be(b[4..6]) == (b[4] as int) * 256 + b[5]
    ensures Be(b[0..4]) == (((b[0] as int) * 256 + b[1]) * 256 + b[2]) * 256 + b[3]
    ensures Be(b[0..6]) == ((((((b[0] as int) * 256 + b[1]) * 256 + b[2]) * 256 + b[3]) * 256 + b[4]) * 256) + b[5]
  {
    assert b[0..6][..5] == b[0..5] && b[0..5][..4] == b[0..4] && b[0..4][..3] == b[0..3];
    assert b[0..3][..2] == b[0..2] && b[0..2][..1] == b[0..1];
    OneDigit(256, b[0..1]);
    assert Be(b[0..2]) == Be(b[0..1]) * 256 + b[1];
    assert Be(b[0..3]) == Be(b[0..2]) * 256 + b[2];
    assert Be(b[0..4]) == Be(b[0..3]) * 256 + b[3];
    assert Be(b[0..5]) == Be(b[0..4]) * 256 + b[4];
    assert b[4..6][..1] == b[4..5];
    OneDigit(256, b[4..5]);
  }

  /** The 60-bit timestamp with time_low blanked, for version 2. */
  function TimestampV2(b: Uuid): Time60 {
    ((b[6] as int) % 16 * 256 + b[7]) * TWO48 + ((b[4] as int) * 256 + b[5]) * TWO32
  }

  lemma Pow16Values()
    ensures Pow(16, 3) == 0x1000 && Pow(16, 4) == 0x1_0000 && Pow(16, 8) == 0x1_0000_0000
  {
    assert Pow(16, 6) == 0x100_0000;
  }

  lemma ZerosSpell()
    ensures Spells("000", [0, 0, 0]) && Number(16, [0, 0, 0]) == 0
    ensures Spells("00000000", [0, 0, 0, 0, 0, 0, 0, 0]) && Number(16, [0, 0, 0, 0, 0, 0, 0, 0]) == 0
  {
    AllZero([0, 0, 0]);
    AllZero([0, 0, 0, 0, 0, 0, 0, 0]);
  }

  lemma {:induction false} AllZero(ns: seq<nat>)
    requires forall k :: 0 <= k < |ns| ==> ns[k] == 0
    ensures Number(16, ns) == 0
  {
    if |ns| > 0 {
      AllZero(ns[..|ns| - 1]);
    }
  }

  /** Concatenated slices denote the concatenated digits. */
  lemma ConcatValue(g: string, ms: seq<nat>, h: string, ns: seq<nat>)
    requires Spells(g, ms) && Spells(h, ns)
    ensures Spells(g + h, ms + ns) && HexValue(g + h) == Number(16, ms) * Pow(16, |ns|) + Number(16, ns)
  {
    SpellsConcat(g, ms, h, ns);
    SpelledValue(g + h, ms + ns);
    NumberConcat(16, ms, ns);
  }

  lemma TimestampHiMid(b: Uuid)
    ensures Spells(Hex32(b)[13..16] + Hex32(b)[8..12], NibSlice(b, 13, 16) + NibSlice(b, 8, 12))
    ensures Number(16, NibSlice(b, 13, 16) + NibSlice(b, 8, 12)) * 0x1_0000_0000 == TimestampV2(b)
  {
    hide Hex32, HexDigit, Be, Number, NibSlice, Nib;
    SliceSpells(b, 13, 16);
    SliceSpells(b, 8, 12);
    SpellsConcat(Hex32(b)[13..16], NibSlice(b, 13, 16), Hex32(b)[8..12], NibSlice(b, 8, 12));
    NumberConcat(16, NibSlice(b, 13, 16), NibSlice(b, 8, 12));
    NibSliceLength(b);
    Pow16Values();
    ThreeNibs(b);
    NibBytes(b, 4, 6);
    SixBytes(b);
  }

  lemma NibSliceLength(b: Uuid)
    ensures |NibSlice(b, 13, 16)| == 3 && |NibSlice(b, 8, 12)| == 4
    ensures |NibSlice(b, 0, 8)| == 8 && |NibSlice(b, 0, 12)| == 12
  {
  }

  /** The 15 hex digits denote the 60-bit number the C decoder rebuilds. */
  lemma TimestampValue(b: Uuid)
    ensures b[6] / 16 == 1 ==> HexValue(GetTimestamp(b)) == TimestampV1(b)
    ensures b[6] / 16 == 2 ==> HexValue(GetTimestamp(b)) == TimestampV2(b)
    ensures b[6] / 16 == 6 ==> HexValue(GetTimestamp(b)) == TimestampV6(b)
    ensures b[6] / 16 == 7 ==> HexValue(GetTimestamp(b)) == Be(b[0..6])
  {
    hide Hex32, HexDigit, Nibble, Be, Number, NibSlice, Nib, HexValue, Spells;
    var hex := Hex32(b);
    NibSliceLength(b);
    Pow16Values();
    SixBytes(b);
    SliceSpells(b, 0, 12);
    SliceSpells(b, 13, 16);
    SliceSpells(b, 0, 8);
    NibBytes(b, 0, 6);
    NibBytes(b, 0, 4);
    ThreeNibs(b);
    ZerosSpell();
    TimestampHiMid(b);
    var top, topN := hex[13..16] + hex[8..12], NibSlice(b, 13, 16) + NibSlice(b, 8, 12);
    if b[6] / 16 == 6 {
      ConcatValue(hex[0..12], NibSlice(b, 0, 12), hex[13..16], NibSlice(b, 13, 16));
    } else if b[6] / 16 == 7 {
      ConcatValue("000", [0, 0, 0], hex[0..12], NibSlice(b, 0, 12));
    } else if b[6] / 16 == 2 {
      ConcatValue(top, topN, "00000000", [0, 0, 0, 0, 0, 0, 0, 0]);
    } else {
      ConcatValue(top, topN, hex[0..8], NibSlice(b, 0, 8));
    }
  }
}
