/** Gregorian ticks, Unix time and version 7 fields: fromDateTime, explicit version 7,
    and the decoder behind getDateTime and getTimestampMillis. */
module TimeCodec {
  import opened Bytes
  import opened Layout
  import opened Fields
  import opened PackV7
  import Gen = Generators

  const EPOCH := 0x01B21DD213814000
  const TICKS := 10_000_000

  /** fromDateTime: the tick count, or an exception. Every intermediate is an int64_t. */
  function Ticks(secs: Int64, us: Micro): Option<Time60> {
    if secs < -200_000_000_000 || secs > 200_000_000_000 then None
    else
      var product: Int64 := secs * TICKS;
      var sum: Int64 := product + us * 10;
      var g: Int64 := sum + EPOCH;
      if g < 0 || g > TWO60 - 1 then None else Some(g)
  }

  /** Ticks since 1582-10-15, 141427 days before 1970. The coarse bound on seconds rejects
      nothing the exact bound would accept. */
  lemma TicksExact(secs: Int64, us: Micro)
    ensures var g := secs * 10_000_000 + us * 10 + 141427 * 86400 * 10_000_000;
      Ticks(secs, us) == if 0 <= g < TWO60 then Some(g) else None
  {
  }

  /** The tick count fu_decode_time rebuilds from versions 1, 2 and 6. */
  function DecodeTicks(b: Uuid): Option<Time60> {
    if b[8] / 0x40 != 2 then None
    else
      var v := b[6] / 16;
      if v == 1 then Some(TimestampV1(b))
      else if v == 2 then Some(TimestampV2(b))
      else if v == 6 then Some(TimestampV6(b))
      else None
  }

  /** fu_decode_time: Unix seconds and microseconds. */
  function DecodeTime(b: Uuid): Option<(int, Micro)> {
    if DecodeTicks(b).Some? then
      var t := DecodeTicks(b).value;
      Some((t / TICKS - EPOCH / TICKS, t % TICKS / 10))
    else if b[8] / 0x40 == 2 && b[6] / 16 == 7 then
      var ms := Be(b[0..6]);
      Some((ms / 1000, ms % 1000 * 1000))
    else None
  }

  /** getTimestampMillis */
  function Millis(b: Uuid): Option<int> {
    match DecodeTime(b)
    case None => None
    case Some((secs, us)) => Some(secs * 1000 + us / 1000)
  }

  /** fromDateTime and the decoder are inverse: the instant comes back exactly, before
      1970 too. */
  lemma DateTimeRoundTrip(secs: Int64, us: Micro, tail: Tail)
    requires tail[0] / 0x40 == 2
    ensures Ticks(secs, us).Some? ==> DecodeTime(V1(Ticks(secs, us).value, tail)) == Some((secs, us))
  {
    hide TimestampV1, TimestampV2, TimestampV6, TimeV1, Version;
    if Ticks(secs, us).Some? {
      var g := Ticks(secs, us).value;
      V1Timestamp(g, tail);
      VersionNibble(V1(g, tail));
      assert V1(g, tail)[8] == tail[0];
      var n := secs + EPOCH / TICKS;
      assert g == n * TICKS + us * 10;
      assert g / TICKS == n && g % TICKS == us * 10;
    }
  }

  /** Which UUIDs carry a time: those of versions 1, 2, 6 and 7 with the RFC variant. Of
      version 2 it is the visible part, the rest read as zero. */
  lemma DecodesIff(b: Uuid)
    ensures DecodeTicks(b).Some? <==> b[8] / 0x40 == 2 && b[6] / 16 in {1, 2, 6}
    ensures DecodeTime(b).Some? <==> b[8] / 0x40 == 2 && b[6] / 16 in {1, 2, 6, 7}
    ensures Millis(b).Some? <==> DecodeTime(b).Some?
    ensures TimestampV2(b) == VisibleV2(b) * TWO32
  {
    hide TimestampV1, TimestampV6;
  }

  /** Microseconds and milliseconds are the floor of the exact instant, also when that is
      negative. */
  lemma MillisIsFloor(b: Uuid)
    ensures DecodeTicks(b).Some? ==>
      DecodeTime(b).Some? && Millis(b).Some? &&
      var (secs, us) := DecodeTime(b).value;
      var m := Millis(b).value; var d := DecodeTicks(b).value - EPOCH;
      && (secs * 1_000_000 + us) * 10 <= d < (secs * 1_000_000 + us + 1) * 10
      && m * 10_000 <= d < (m + 1) * 10_000
  {
    hide TimestampV1, TimestampV2, TimestampV6;
    if DecodeTicks(b).Some? {
      FloorOf(DecodeTicks(b).value);
    }
  }

  lemma FloorOf(t: Time60)
    ensures var secs, us := t / TICKS - EPOCH / TICKS, t % TICKS / 10;
      && (secs * 1_000_000 + us) * 10 <= t - EPOCH < (secs * 1_000_000 + us + 1) * 10
    ensures var m := (t / TICKS - EPOCH / TICKS) * 1000 + t % TICKS / 10 / 1000;
      m * 10_000 <= t - EPOCH < (m + 1) * 10_000
  {
    assert EPOCH == EPOCH / TICKS * TICKS;
    assert t % TICKS / 10 / 1000 == t % TICKS / 10_000;
  }

  // ---- live clock ----------------------------------------------------------

  /** When the clock is past the mark, versions 1 and 6 decode to its reading, truncated
      to microseconds. */
  lemma LiveClockReadsBack(sec: int, nsec: Gen.Nsec, tail: Tail, g: Gen.Globals)
    requires tail[0] / 0x40 == 2
    requires Gen.GregNow(Gen.Reading(sec, nsec)).Some?
    requires g.gregLast < Gen.GregNow(Gen.Reading(sec, nsec)).value
    ensures var t := Gen.GregMonotonic(g, Gen.Reading(sec, nsec)).1;
      && t.Some?
      && DecodeTime(V1(t.value, tail)) == Some((sec, nsec / 1000))
      && DecodeTime(V6(t.value, tail)) == Some((sec, nsec / 1000))
  {
    hide TimestampV1, TimestampV2, TimestampV6, TimeV1, TimeV6, Version;
    var t := Gen.GregNow(Gen.Reading(sec, nsec)).value;
    V1Timestamp(t, tail);
    V6Timestamp(t, tail);
    VersionNibble(V1(t, tail));
    assert V1(t, tail)[8] == tail[0] && V6(t, tail)[8] == tail[0];
    var n, f := sec + EPOCH / TICKS, nsec / 100;
    assert (sec * Gen.NANOS + nsec) / 100 == sec * TICKS + f;
    assert t == n * TICKS + f;
    assert t / TICKS == n && t % TICKS == f;
    assert f / 10 == nsec / 1000;
  }

  // ---- explicit version 7 --------------------------------------------------

  /** Microseconds since the epoch. */
  function Instant(sec: Int64, us: Micro): int { sec * 1_000_000 + us }

  /** The 12-bit fraction orders and separates the microseconds of a millisecond. */
  lemma FractionOrder(x: Milli, y: Milli)
    ensures x < y <==> x * 4096 / 1000 < y * 4096 / 1000
  {
  }

  /** (ms, fraction) is ordered as the instants are. */
  lemma FieldsOrder(sec: Int64, us: Micro, sec': Int64, us': Micro)
    requires DateTimeFields(sec, us).Some? && DateTimeFields(sec', us').Some?
    ensures var (ms, sub) := DateTimeFields(sec, us).value;
      var (ms', sub') := DateTimeFields(sec', us').value;
      && sub < 4096 && sub' < 4096
      && (Instant(sec, us) < Instant(sec', us') <==> ms * 4096 + sub < ms' * 4096 + sub')
      && (Instant(sec, us) == Instant(sec', us') <==> ms == ms' && sub == sub')
  {
    FractionOrder(us % 1000, us' % 1000);
    FractionOrder(us' % 1000, us % 1000);
    assert Instant(sec, us) == (sec * 1000 + us / 1000) * 1000 + us % 1000;
    assert Instant(sec', us') == (sec' * 1000 + us' / 1000) * 1000 + us' % 1000;
  }

  /** Milliseconds and fraction are the key a live call takes at that instant:
      floor of the instant in units of 1/4096 ms. */
  lemma ExplicitKeyIsLive(sec: Int64, us: Micro)
    requires DateTimeFields(sec, us).Some?
    ensures var (ms, sub) := DateTimeFields(sec, us).value;
      && ms * 4096 + sub == Instant(sec, us) * 4096 / 1000
      && var clk := Gen.Reading(sec, us * 1000);
         Gen.UnixNanos(clk).Some? ==> Gen.TimeKey(Gen.UnixNanos(clk).value) == ms * 4096 + sub
  {
    var ms, f := sec * 1000 + us / 1000, us % 1000;
    assert Instant(sec, us) == ms * 1000 + f;
    assert Instant(sec, us) * 4096 == ms * 4096 * 1000 + f * 4096;
    var ns := sec * Gen.NANOS + us * 1000;
    assert ns == ms * 1_000_000 + f * 1000;
    assert ns / 1_000_000 == ms && ns % 1_000_000 == f * 1000;
    assert f * 1000 * 4096 / 1_000_000 == f * 4096 / 1000;
  }

  /** Explicit version 7 UUIDs sort as their instants, to the microsecond, whatever the
      random part; equal instants only can tie. */
  lemma ExplicitV7Order(sec: Int64, us: Micro, r: RandB, sec': Int64, us': Micro, r': RandB)
    requires DateTimeFields(sec, us).Some? && DateTimeFields(sec', us').Some?
    requires Instant(sec, us) < Instant(sec', us')
    ensures var (ms, sub) := DateTimeFields(sec, us).value;
      var (ms', sub') := DateTimeFields(sec', us').value;
      MemLess(V7(ms, sub, r), V7(ms', sub', r'))
  {
    hide V7, MemLess, Be;
    FieldsOrder(sec, us, sec', us');
    var (ms, sub) := DateTimeFields(sec, us).value;
    var (ms', sub') := DateTimeFields(sec', us').value;
    var k, k' := ms * TWO12 + sub, ms' * TWO12 + sub';
    KeyParts(ms, sub);
    KeyParts(ms', sub');
    V7Order(k, r, k', r');
  }

  lemma KeyParts(ms: nat, sub: nat)
    requires sub < TWO12
    ensures (ms * TWO12 + sub) / TWO12 == ms && (ms * TWO12 + sub) % TWO12 == sub
  {
  }

  lemma V7Stamped(ms: nat, sub: nat, r: RandB)
    requires ms < TWO48 && sub < TWO12
    ensures var b := V7(ms, sub, r); b[6] / 16 == 7 && b[8] / 0x40 == 2 && b[..6] == b[0..6]
  {
  }

  /** Decoding gives the instant truncated to milliseconds. */
  lemma ExplicitV7Decodes(sec: Int64, us: Micro, r: RandB)
    requires DateTimeFields(sec, us).Some?
    ensures var (ms, sub) := DateTimeFields(sec, us).value;
      && DecodeTime(V7(ms, sub, r)) == Some((sec, us / 1000 * 1000))
      && Millis(V7(ms, sub, r)) == Some(sec * 1000 + us / 1000)
  {
    hide Be, V7, TimestampV1, TimestampV2, TimestampV6;
    var (ms, sub) := DateTimeFields(sec, us).value;
    V7Front(ms, sub, r);
    V7Stamped(ms, sub, r);
    assert ms / 1000 == sec && ms % 1000 == us / 1000;
  }

  /** PHP's getTimestamp and the C decoder read the same ticks. */
  lemma TimestampsAgree(b: Uuid)
    ensures DecodeTicks(b).Some? ==> HexValue(GetTimestamp(b)) == DecodeTicks(b).value
  {
    hide TimestampV1, TimestampV2, TimestampV6, HexValue, GetTimestamp;
    TimestampValue(b);
  }
}
