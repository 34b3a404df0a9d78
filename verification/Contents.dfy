/** What each call gives its caller: when it fails, which clock reading and which
    supplied fields a UUID shows, and which drawn byte every other bit is. */
module Contents {
  import opened Positional
  import opened Bytes
  import opened Csprng
  import opened CsprngLemmas
  import opened Layout
  import opened Generators
  import opened Words
  import opened PackV7
  import opened Runs
  import opened Forks
  import opened Reachable
  import X = Xoshiro

  // ---- bytes ---------------------------------------------------------------

  /** u is b with version and variant stamped over six bits. */
  ghost predicate Stamped(u: Uuid, b: seq<byte>, version: nat)
    requires |b| == 16
  {
    && u[6] / 16 == version && u[8] / 0x40 == 2
    && u[6] % 16 == b[6] % 16 && u[8] % 0x40 == b[8] % 0x40
    && forall i :: 0 <= i < 16 && i != 6 && i != 8 ==> u[i] == b[i]
  }

  /** The call returned one UUID. */
  predicate Got(o: Outcome) { o.Uuids? && |o.list| == 1 }

  /** Random bytes of a call, none asked for if it needs none. */
  function DrawOf(env: Env, r: Rng, n: nat): (res: (Rng, Option<Draw>))
    ensures res.1.Some? ==> |res.1.value.bytes| == n
  {
    if n == 0 then (r, Some(Draw([], []))) else Rand(env, r, n)
  }

  // ---- version 4 -----------------------------------------------------------

  /** Version 4 is 16 drawn bytes, stamped. */
  lemma V4Call(env: Env, g: Globals)
    ensures var (g', o) := Step(env, g, GetV4);
      var (r, d) := Rand(env, g.rng, 16);
      && g' == g.(rng := r)
      && if d.None? then o == Failed else Got(o) && Stamped(o.list[0], d.value.bytes, 4)
  {
    hide Rand;
    var d := Rand(env, g.rng, 16).1;
    if d.Some? {
      SetVersionKeepsRest(d.value.bytes, 4);
    }
  }

  /** uuid_v4_fast is two output words in memory order, stamped; the first call seeds the
      state with 32 drawn bytes, and fails only if that draw does. */
  lemma V4FastCall(env: Env, g: Globals)
    ensures var (g', o) := Step(env, g, GetV4Fast);
      var (r, d) := Rand(env, g.rng, 32);
      if !g.prngSeeded && d.None? then o == Failed && g' == g.(rng := r, prng := X.ZERO)
      else
        var s := if g.prngSeeded then g.prng else SeedXs(d.value.bytes);
        && g' == g.(rng := if g.prngSeeded then g.rng else r, prng := X.Next(X.Next(s)), prngSeeded := true)
        && Got(o) && Stamped(o.list[0], WordBytes(X.Output(s)) + WordBytes(X.Output(X.Next(s))), 4)
  {
    hide Rand, X.Next, X.Output, SeedXs, SetVersion, WordBytes;
    var d := Rand(env, g.rng, 32).1;
    if g.prngSeeded || d.Some? {
      var s := if g.prngSeeded then g.prng else SeedXs(d.value.bytes);
      SetVersionKeepsRest(WordBytes(X.Output(s)) + WordBytes(X.Output(X.Next(s))), 4);
    }
  }

  lemma BytesOfWord(x: bv64, s: seq<byte>)
    requires |s| == 8
    requires x & 0xff == Lane(s[0]) && (x >> 8) & 0xff == Lane(s[1]) && (x >> 16) & 0xff == Lane(s[2])
    requires (x >> 24) & 0xff == Lane(s[3]) && (x >> 32) & 0xff == Lane(s[4]) && (x >> 40) & 0xff == Lane(s[5])
    requires (x >> 48) & 0xff == Lane(s[6]) && (x >> 56) & 0xff == Lane(s[7])
    ensures WordBytes(x) == s
  {
    hide Lane, LowByte;
    LowByteOf(x, s[0]);
    LowByteOf(x >> 8, s[1]);
    LowByteOf(x >> 16, s[2]);
    LowByteOf(x >> 24, s[3]);
    LowByteOf(x >> 32, s[4]);
    LowByteOf(x >> 40, s[5]);
    LowByteOf(x >> 48, s[6]);
    LowByteOf(x >> 56, s[7]);
  }

  /** A word holds the eight bytes it was read from. */
  lemma WordInMemory(s: seq<byte>)
    requires |s| == 8
    ensures WordBytes(LaneWord(s)) == s
  {
    hide Lane, WordBytes;
    forall i | 0 <= i < 8
      ensures Lane(s[i]) <= 0xff
    {
      LowByteOf(0, s[i]);
    }
    LaneBits(Lane(s[0]), Lane(s[1]), Lane(s[2]), Lane(s[3]), Lane(s[4]), Lane(s[5]), Lane(s[6]), Lane(s[7]));
    BytesOfWord(LaneWord(s), s);
  }

  /** The state seeded is the 32 bytes drawn, unless these are all zero. */
  lemma SeedShows(s: seq<byte>)
    requires |s| == 32
    ensures var x := SeedXs(s);
      if s == seq(32, _ => 0) then x == X.Xs(0x9e3779b97f4a7c15, 0, 0, 0)
      else WordBytes(x.s0) + WordBytes(x.s1) + WordBytes(x.s2) + WordBytes(x.s3) == s
  {
    hide LaneWord, WordBytes;
    var a, b, c, d := s[..8], s[8..16], s[16..24], s[24..];
    assert s == a + b + c + d;
    ZeroWord(a);
    ZeroWord(b);
    ZeroWord(c);
    ZeroWord(d);
    assert (seq<byte>(8, _ => 0)) + (seq<byte>(8, _ => 0)) + (seq<byte>(8, _ => 0)) + (seq<byte>(8, _ => 0))
      == seq<byte>(32, _ => 0);
    assert s == seq(32, _ => 0) ==>
      a == seq(8, _ => 0) && b == seq(8, _ => 0) && c == seq(8, _ => 0) && d == seq(8, _ => 0);
  }

  lemma ZeroWord(s: seq<byte>)
    requires |s| == 8
    ensures WordBytes(LaneWord(s)) == s
    ensures LaneWord(s) == 0 <==> s == seq<byte>(8, _ => 0)
  {
    WordInMemory(s);
    AllZeroWord();
    hide LaneWord, WordBytes;
    var zero := seq<byte>(8, _ => 0);
  }

  lemma AllZeroWord()
    ensures LaneWord(seq<byte>(8, _ => 0)) == 0 && WordBytes(0) == seq<byte>(8, _ => 0)
  {
    hide Lane, LowByte;
    SmallLanes();
  }

  /** The lowest byte of a word is the first in memory. */
  lemma LowestFirst()
    ensures WordBytes(1) == [1, 0, 0, 0, 0, 0, 0, 0]
  {
    hide Lane, WordBytes;
    SmallLanes();
    WordInMemory([1, 0, 0, 0, 0, 0, 0, 0]);
  }

  // ---- version 7 -----------------------------------------------------------

  /** Milliseconds and fraction as one number, and rand_b, read off the bytes. */
  function KeyShown(u: Uuid): nat { Be(u[..6]) * TWO12 + (u[6] as int) % 16 * 256 + u[7] }

  function RandBShown(u: Uuid): nat { Be(u[8..]) % TWO62 }

  ghost predicate IsV7(u: Uuid) { u[6] / 16 == 7 && u[8] / 0x40 == 2 }

  /** rand_b is the eight drawn bytes without their two highest bits. */
  ghost predicate RandBDrawn(u: Uuid, b: seq<byte>)
    requires |b| == 8
  {
    u[8] % 0x40 == b[0] % 0x40 && u[9..] == b[1..]
  }

  lemma V7Shows(ms: nat, sub: nat, randb: RandB)
    requires ms < TWO48 && sub < TWO12
    ensures var u := V7(ms, sub, randb);
      IsV7(u) && Be(u[..6]) == ms && (u[6] as int) % 16 * 256 + u[7] == sub && RandBShown(u) == randb
  {
    V7Nibbles(ms, sub, randb);
    hide V7, Be;
    V7Front(ms, sub, randb);
    V7Low(ms, sub, randb);
    TopBits(randb);
  }

  lemma V7Nibbles(ms: nat, sub: nat, randb: RandB)
    requires ms < TWO48 && sub < TWO12
    ensures var u := V7(ms, sub, randb); IsV7(u) && (u[6] as int) % 16 * 256 + u[7] == sub
  {
  }

  lemma TopBits(r: RandB)
    ensures (0x8000_0000_0000_0000 + r) % TWO62 == r
  {
  }

  lemma V7KeyShows(key: Time60, randb: RandB)
    ensures var u := V7OfKey(key, randb); IsV7(u) && KeyShown(u) == key && RandBShown(u) == randb
  {
    hide V7, Be;
    V7Shows(key / TWO12, key % TWO12, randb);
  }

  lemma RandBBytes(u: Uuid, b: seq<byte>)
    requires |b| == 8 && IsV7(u) && RandBShown(u) == RandomRandB(b)
    ensures RandBDrawn(u, b)
  {
    var lo := [0x80 + b[0] % 0x40] + b[1..];
    RandBValue(b, lo);
    HighByte(u[8..]);
    hide Be;
    BeInjective(u[8..], lo);
    assert u[8] == u[8..][0] && u[9..] == u[8..][1..];
  }

  lemma RandBValue(b: seq<byte>, lo: seq<byte>)
    requires |b| == 8 && lo == [0x80 + b[0] % 0x40] + b[1..]
    ensures Be(lo) == 0x8000_0000_0000_0000 + Be(b) % TWO62
  {
    hide Be;
    Be8(b);
    Be8(lo);
    var rest := (b[1] as int) * 0x1_0000_0000_0000 + (b[2] as int) * 0x100_0000_0000 + (b[3] as int) * 0x1_0000_0000 +
      (b[4] as int) * 0x100_0000 + (b[5] as int) * 0x1_0000 + (b[6] as int) * 0x100 + b[7];
    assert Be(b) == (b[0] as int) * 0x100_0000_0000_0000 + rest;
    assert Be(b) == (b[0] as int) / 0x40 * TWO62 + ((b[0] as int) % 0x40 * 0x100_0000_0000_0000 + rest);
  }

  lemma HighByte(s: seq<byte>)
    requires |s| == 8 && s[0] / 0x40 == 2
    ensures Be(s) == 0x8000_0000_0000_0000 + Be(s) % TWO62
  {
    hide Be;
    Be8(s);
  }

  /** Explicit version 7 shows the milliseconds and fraction given, over a fresh rand_b. */
  lemma V7AtCall(env: Env, g: Globals, ms: Millis, sub: SubMs)
    ensures var (g', o) := Step(env, g, GetV7At(ms, sub));
      var (r, d) := Rand(env, g.rng, 8);
      && g' == g.(rng := r)
      && if d.None? then o == Failed
         else
           && Got(o) && IsV7(o.list[0])
           && Be(o.list[0][..6]) == ms && (o.list[0][6] as int) % 16 * 256 + o.list[0][7] == sub
           && RandBDrawn(o.list[0], d.value.bytes)
  {
    hide Rand, Be, V7;
    var d := Rand(env, g.rng, 8).1;
    if d.Some? {
      var u := V7(ms, sub, RandomRandB(d.value.bytes));
      V7Shows(ms, sub, RandomRandB(d.value.bytes));
      RandBBytes(u, d.value.bytes);
    }
  }

  /** A live call at a reading past the remembered key shows floor(ns * 4096 / 10^6) over a
      fresh rand_b, and remembers both. */
  ghost predicate NewReading(env: Env, g: Globals, g': Globals, o: Outcome, key: nat) {
    var (r, d) := Rand(env, g.rng, 8);
    if d.None? then o == Failed && g' == g.(rng := r)
    else
      && Got(o) && IsV7(o.list[0]) && KeyShown(o.list[0]) == key && RandBDrawn(o.list[0], d.value.bytes)
      && g'.v7Key == key && g'.v7RandB == RandBShown(o.list[0])
      && g' == g.(rng := r, v7Key := g'.v7Key, v7RandB := g'.v7RandB, v7Initialized := true)
  }

  /** At any other reading it counts on by one more than the three drawn bytes say. */
  ghost predicate Tie(env: Env, g: Globals, g': Globals, o: Outcome) {
    var (r, d) := Rand(env, g.rng, 3);
    if d.None? || V7Number(g.v7Key, g.v7RandB) + Be(d.value.bytes) + 1 >= TWO60 * TWO62
    then o == Failed && g' == g.(rng := r)
    else
      && Got(o) && IsV7(o.list[0])
      && KeyShown(o.list[0]) == g'.v7Key && RandBShown(o.list[0]) == g'.v7RandB
      && V7Number(g'.v7Key, g'.v7RandB) == V7Number(g.v7Key, g.v7RandB) + Be(d.value.bytes) + 1
      && g' == g.(rng := r, v7Key := g'.v7Key, v7RandB := g'.v7RandB)
  }

  lemma V7Call(env: Env, g: Globals, clk: Clock)
    ensures var (g', o) := Step(env, g, GetV7(clk));
      if UnixNanos(clk).None? then o == Failed && g' == g
      else
        var key := UnixNanos(clk).value * 4096 / 1_000_000;
        if !g.v7Initialized || key > g.v7Key then NewReading(env, g, g', o, key) else Tie(env, g, g', o)
  {
    hide Rand, Be, V7OfKey, UnixNanos, TimeKey, RandomRandB, StepOf,
         IsV7, KeyShown, RandBShown, RandBDrawn, V7Number;
    if UnixNanos(clk).Some? {
      TimeKeyIsFloor(UnixNanos(clk).value);
      var key := TimeKey(UnixNanos(clk).value);
      if !g.v7Initialized || key > g.v7Key {
        var d := Rand(env, g.rng, 8).1;
        if d.Some? {
          V7KeyShows(key, RandomRandB(d.value.bytes));
          RandBBytes(V7OfKey(key, RandomRandB(d.value.bytes)), d.value.bytes);
        }
      } else {
        var c := Counter(g.v7Key, g.v7RandB);
        IncrementAdds(env, g.rng, c);
        var d := Rand(env, g.rng, 3).1;
        if d.Some? { StepIsBe(d.value.bytes); }
        var c' := Increment(env, g.rng, c).1;
        if c'.Some? { V7KeyShows(c'.value.key, c'.value.randb); }
      }
    }
  }

  lemma StepIsBe(s: seq<byte>)
    requires |s| == 3
    ensures StepOf(s) == Be(s) + 1
  {
    assert s[..2][..1] == s[..1];
    OneDigit(256, s[..1]);
    assert Be(s[..2]) == Be(s[..1]) * 256 + s[1];
  }

  /** A batch is that many single calls, and is refused outside 1 to 100000. */
  lemma V7BatchCall(env: Env, g: Globals, clk: Clock, count: int)
    ensures var (g', o) := Step(env, g, GetV7Batch(clk, count));
      if count < 1 || count > 100_000 then o == Failed && g' == g
      else
        var (g2, list, ok) := Singles(env, g, clk, count);
        g' == g2 && o == if ok then Uuids(list) else Failed
  {
    hide GenV7Batch, Singles;
    if 1 <= count <= 100_000 {
      BatchIsSingles(env, g, clk, count);
    }
  }

  // ---- clock sequence and node ---------------------------------------------

  /** Random bytes clock sequence and node take together: 6 for the node, then 2. */
  function TailNeeds(node: Option<Node>, cs: Option<ClockSeq>): nat {
    (if node.None? then 6 else 0) + (if cs.None? then 2 else 0)
  }

  /** The node is the one supplied, or six drawn bytes with the multicast bit set. */
  ghost predicate NodeShown(u: Uuid, node: Option<Node>, b: seq<byte>) {
    match node
    case Some(n) => u[10..] == n
    case None => |b| >= 6 && u[10] / 2 == b[0] / 2 && u[10] % 2 == 1 && u[11..] == b[1..6]
  }

  /** The upper six bits of the clock sequence, under the variant. */
  ghost predicate SeqHighShown(u: Uuid, cs: Option<ClockSeq>, b: seq<byte>) {
    && u[8] / 0x40 == 2
    && match cs
       case Some(c) => u[8] % 0x40 == c / 256
       case None => |b| >= 2 && u[8] % 0x40 == b[|b| - 2] % 0x40
  }

  ghost predicate SeqLowShown(u: Uuid, cs: Option<ClockSeq>, b: seq<byte>) {
    match cs
    case Some(c) => u[9] == c % 256
    case None => |b| >= 2 && u[9] == b[|b| - 1]
  }

  function NodeFrom(node: Option<Node>, b: seq<byte>): Node
    requires node.None? ==> |b| >= 6
  {
    if node.Some? then node.value else RandomNode(b[..6])
  }

  function SeqFrom(cs: Option<ClockSeq>, b: seq<byte>): ClockSeq
    requires cs.None? ==> |b| >= 2
  {
    if cs.Some? then cs.value else RandomClockSeq(b[|b| - 2], b[|b| - 1])
  }

  lemma LayTailIs(env: Env, r: Rng, node: Option<Node>, cs: Option<ClockSeq>)
    ensures var (r1, d) := DrawOf(env, r, TailNeeds(node, cs));
      LayTail(env, r, node, cs) ==
        (r1, if d.None? then None
             else Some(TailBytes(NodeFrom(node, d.value.bytes), SeqFrom(cs, d.value.bytes))))
  {
    hide Rand, RandomNode, RandomClockSeq, TailBytes;
    var d := DrawOf(env, r, TailNeeds(node, cs)).1;
    if d.Some? && node.None? && cs.Some? {
      assert d.value.bytes[..6] == d.value.bytes;
    }
  }

  lemma TailBytesShow(time: seq<byte>, node: Option<Node>, cs: Option<ClockSeq>, b: seq<byte>)
    requires |time| == 8 && |b| == TailNeeds(node, cs)
    ensures var u := time + TailBytes(NodeFrom(node, b), SeqFrom(cs, b));
      NodeShown(u, node, b) && SeqHighShown(u, cs, b) && SeqLowShown(u, cs, b)
  {
    hide RandomClockSeq;
    var n, c := NodeFrom(node, b), SeqFrom(cs, b);
    var u := time + TailBytes(n, c);
    assert u[8] == 0x80 + c / 256 && u[9] == c % 256 && u[10..] == n;
    if node.None? {
      NodeBytes(u, b);
    }
    if cs.None? {
      SeqBytes(b[|b| - 2], b[|b| - 1]);
    }
  }

  lemma NodeBytes(u: Uuid, b: seq<byte>)
    requires |b| >= 6 && u[10..] == RandomNode(b[..6])
    ensures u[10] / 2 == b[0] / 2 && u[10] % 2 == 1 && u[11..] == b[1..6]
  {
    var n := RandomNode(b[..6]);
    assert u[10] == u[10..][0] && u[11..] == u[10..][1..];
    assert n[1..] == b[..6][1..] == b[1..6];
  }

  /** The tail shows node and clock sequence, each supplied or drawn. */
  lemma TailShown(env: Env, r: Rng, node: Option<Node>, cs: Option<ClockSeq>, time: seq<byte>)
    requires |time| == 8
    ensures var (r', tail) := LayTail(env, r, node, cs);
      var (r1, d) := DrawOf(env, r, TailNeeds(node, cs));
      && r' == r1 && (tail.Some? <==> d.Some?)
      && (tail.Some? ==>
            && var u := time + tail.value;
            && NodeShown(u, node, d.value.bytes)
            && SeqHighShown(u, cs, d.value.bytes) && SeqLowShown(u, cs, d.value.bytes))
  {
    hide LayTail, Rand, RandomNode, RandomClockSeq, TailBytes, NodeShown, SeqHighShown, SeqLowShown;
    LayTailIs(env, r, node, cs);
    var d := DrawOf(env, r, TailNeeds(node, cs)).1;
    if d.Some? {
      TailBytesShow(time, node, cs, d.value.bytes);
    }
  }

  lemma SeqBytes(hi: byte, lo: byte)
    ensures RandomClockSeq(hi, lo) / 256 == hi % 0x40 && RandomClockSeq(hi, lo) % 256 == lo
  {
    var q, h: int := hi / 0x40, hi % 0x40;
    assert hi * 256 + lo == q * 0x4000 + (h * 256 + lo);
    assert RandomClockSeq(hi, lo) == h * 256 + lo;
  }

  // ---- versions 1 and 6 ----------------------------------------------------

  /** Version 1 or 6 shows the larger of the reading and the mark's successor, which
      becomes the mark also when the draw fails. */
  lemma GregCall(env: Env, g: Globals, six: bool, clk: Clock, node: Option<Node>, cs: Option<ClockSeq>)
    ensures var (g', o) := Step(env, g, GetGreg(six, clk, node, cs));
      if GregNow(clk).None? || g.gregLast == TWO60 - 1 then o == Failed && g' == g
      else
        var t: Time60 := if GregNow(clk).value <= g.gregLast then g.gregLast + 1 else GregNow(clk).value;
        var (r, d) := DrawOf(env, g.rng, TailNeeds(node, cs));
        && g' == g.(rng := r, gregLast := t)
        && if d.None? then o == Failed
           else
             && Got(o)
             && var u := o.list[0];
             && u[6] / 16 == (if six then 6 else 1) && (if six then TimestampV6(u) else TimestampV1(u)) == t
             && NodeShown(u, node, d.value.bytes)
             && SeqHighShown(u, cs, d.value.bytes) && SeqLowShown(u, cs, d.value.bytes)
  {
    hide Rand, GregNow, TimeV1, TimeV6, TimestampV1, TimestampV6, TailBytes, Version, LayTail,
         NodeShown, SeqHighShown, SeqLowShown;
    var (g1, t) := GregMonotonic(g, clk);
    if t.Some? {
      TailShown(env, g.rng, node, cs, if six then TimeV6(t.value) else TimeV1(t.value));
      var (r, tail) := LayTail(env, g.rng, node, cs);
      if tail.Some? {
        TailVariant(env, g.rng, node, cs);
        if six {
          V6Timestamp(t.value, tail.value);
        } else {
          V1Timestamp(t.value, tail.value);
          VersionNibble(V1(t.value, tail.value));
        }
      }
    }
  }

  /** A reading in ticks since 1582-10-15, 141427 days before 1970, rounded down. */
  lemma TicksOfReading(clk: Clock)
    ensures GregNow(clk).Some? <==> UnixNanos(clk).Some?
    ensures GregNow(clk).Some? ==>
      var d := clk.sec * 1_000_000_000 + clk.nsec;
      && UnixNanos(clk).value == d
      && 0 <= d - (GregNow(clk).value - 141427 * 86400 * 10_000_000) * 100 < 100
  {
  }

  // ---- version 2 -----------------------------------------------------------

  /** Version 2 shows identifier, domain, node and the upper clock sequence, and the upper
      28 bits of the reading, or, with node and clock sequence supplied and the reading not
      past the mark, the mark's successor. */
  lemma V2Call(env: Env, g: Globals, clk: Clock, id: LocalId, domain: byte, node: Option<Node>, cs: Option<ClockSeq>)
    ensures var (g', o) := Step(env, g, GetV2(clk, id, domain, node, cs));
      var marked := node.Some? && cs.Some?;
      if GregNow(clk).None? then o == Failed && g' == g
      else
        var seen := GregNow(clk).value / TWO32;
        if marked && g.v2Last == TWO28 - 1 then o == Failed && g' == g
        else
          var vis: Visible := if marked && seen <= g.v2Last then g.v2Last + 1 else seen;
          var (r, d) := DrawOf(env, g.rng, TailNeeds(node, cs));
          && g' == g.(rng := r, v2Last := if marked then vis else g.v2Last)
          && if d.None? then o == Failed
             else
               && Got(o)
               && var u := o.list[0];
               && u[6] / 16 == 2 && VisibleV2(u) == vis && Be(u[..4]) == id && u[9] == domain
               && NodeShown(u, node, d.value.bytes) && SeqHighShown(u, cs, d.value.bytes)
  {
    hide Rand, GregNow, VisibleV2, TailBytes, LayTail, Be, V1, StampV2, SeqLowShown;
    var (g1, t) := if node.Some? && cs.Some? then V2Monotonic(g, clk) else (g, GregNow(clk));
    if t.Some? {
      var (r, tail) := LayTail(env, g.rng, node, cs);
      if tail.Some? {
        V2Stamped(env, g.rng, node, cs, t.value, tail.value, id, domain);
      }
      TailShown(env, g.rng, node, cs, seq(8, _ => 0));
    }
  }

  lemma V2Stamped(env: Env, r: Rng, node: Option<Node>, cs: Option<ClockSeq>,
                  g: Time60, tail: Tail, id: LocalId, domain: byte)
    requires LayTail(env, r, node, cs).1 == Some(tail)
    ensures var u := StampV2(V1(g, tail), id, domain);
      var d := DrawOf(env, r, TailNeeds(node, cs)).1;
      && u[6] / 16 == 2 && VisibleV2(u) == g / TWO32 && Be(u[..4]) == id && u[9] == domain
      && d.Some? && NodeShown(u, node, d.value.bytes) && SeqHighShown(u, cs, d.value.bytes)
  {
    hide Rand, VisibleV2, TailBytes, LayTail, Be, TimeV1;
    V2ReadsBack(g, tail, id, domain);
    V2Visible(g, tail, id, domain);
    TailShown(env, r, node, cs, TimeV1(g));
    var b, u := TimeV1(g) + tail, StampV2(V1(g, tail), id, domain);
    Be4(u[..4]);
    assert u[10..] == b[10..] && u[10] == u[10..][0] && b[10] == b[10..][0];
    assert u[11..] == u[10..][1..] && b[11..] == b[10..][1..];
  }

  lemma Be4(s: seq<byte>)
    requires |s| == 4
    ensures Be(s) == (s[0] as int) * 0x100_0000 + (s[1] as int) * 0x1_0000 + (s[2] as int) * 0x100 + s[3]
  {
    assert s[..3][..2] == s[..2] && s[..2][..1] == s[..1];
    OneDigit(256, s[..1]);
    assert Be(s[..2]) == Be(s[..1]) * 256 + s[1];
    assert Be(s[..3]) == Be(s[..2]) * 256 + s[2];
  }

  // ---- raw bytes -----------------------------------------------------------

  /** fast_uuid_random_bytes returns exactly the slices it logs as served, and takes 1 to
      2^24 bytes; fu_rand likewise, any number. */
  lemma BytesCall(env: Env, g: Globals, n: int)
    requires Inv(env, g.rng)
    ensures var (g', o) := Step(env, g, GetRandomBytes(n));
      && g' == g.(rng := g'.rng) && g.rng.given <= g'.rng.given
      && (n < 1 || n > 0x100_0000 ==> o == Failed && g' == g)
      && (o == Failed || (o.Raw? && |o.bytes| == n))
      && var served := g'.rng.given[|g.rng.given|..];
      && (o.Failed? ==> served == [])
      && (o.Raw? ==> o.bytes == BytesOf(env, g'.rng.sources, served))
  {
    hide RandomBytes, Inv, BytesOf;
    RandomBytesRange(env, g.rng, n);
    RandomBytesOk(env, g.rng, n);
    var (r, d) := RandomBytes(env, g.rng, n);
    if d.Some? {
      assert (g.rng.given + d.value.slices)[|g.rng.given|..] == d.value.slices;
    }
  }

  lemma RandomBytesRange(env: Env, r: Rng, n: int)
    ensures n < 1 || n > 0x100_0000 ==> RandomBytes(env, r, n) == (r, None)
  {
  }

  lemma DrawCall(env: Env, g: Globals, n: nat)
    requires Inv(env, g.rng)
    ensures var (g', o) := Step(env, g, GetDraw(n));
      && g' == g.(rng := g'.rng) && g.rng.given <= g'.rng.given
      && (o == Failed || (o.Raw? && |o.bytes| == n))
      && var served := g'.rng.given[|g.rng.given|..];
      && (o.Failed? ==> served == [])
      && (o.Raw? ==> o.bytes == BytesOf(env, g'.rng.sources, served))
  {
    hide Rand, Inv, BytesOf;
    RandOk(env, g.rng, n);
    var (r, d) := Rand(env, g.rng, n);
    if d.Some? {
      assert (g.rng.given + d.value.slices)[|g.rng.given|..] == d.value.slices;
    }
  }

  // ---- fork ----------------------------------------------------------------

  /** But for the history, the child starts as a fresh process does. */
  lemma ForkForgets(env: Env, g: Globals)
    ensures Step(env, g, ForkChild) == (Fork(g), Silent)
    ensures Fork(g).(rng := Ginit()) == InitGlobals()
    ensures ForkReset(g.rng).(calls := 0, sources := [], inBuffer := 0, given := []) == Ginit()
    ensures var f := Fork(g);
      && f.rng.rpos == CHUNK && f.rng.since == 0 && !f.rng.seeded && f.rng.rbuf == seq(CHUNK, _ => 0)
      && f.rng.key == seq(32, _ => 0) && f.rng.ctr == seq(16, _ => 0)
      && f.prng == X.Xs(0, 0, 0, 0) && !f.prngSeeded && !f.v7Initialized && f.gregLast == 0 && f.v2Last == 0
  {
  }

  lemma {:induction false} StaysUnseeded(env: Env, g: Globals, evs: seq<Event>)
    requires !g.prngSeeded && forall i :: 0 <= i < |evs| ==> !evs[i].GetV4Fast?
    ensures !Run(env, g, evs).prngSeeded
    decreases |evs|
  {
    hide Step;
    if |evs| > 0 {
      var n := |evs| - 1;
      StaysUnseeded(env, g, evs[..n]);
      StepKeepsUnset(env, Run(env, g, evs[..n]), evs[n]);
    }
  }

  lemma {:induction false} StaysUncounted(env: Env, g: Globals, evs: seq<Event>)
    requires !g.v7Initialized && forall i :: 0 <= i < |evs| ==> !evs[i].GetV7? && !evs[i].GetV7Batch?
    ensures !Run(env, g, evs).v7Initialized
    decreases |evs|
  {
    hide Step;
    if |evs| > 0 {
      var n := |evs| - 1;
      StaysUncounted(env, g, evs[..n]);
      StepKeepsUnset(env, Run(env, g, evs[..n]), evs[n]);
    }
  }

  lemma StepKeepsUnset(env: Env, g: Globals, ev: Event)
    ensures !ev.GetV4Fast? && !g.prngSeeded ==> !Step(env, g, ev).0.prngSeeded
    ensures !ev.GetV7? && !ev.GetV7Batch? && !g.v7Initialized ==> !Step(env, g, ev).0.v7Initialized
  {
    hide Rand, RandomBytes, V7OfKey, Start, BatchTail, LayTail, StampV2, V1, V6, GregNow, SetVersion,
         X.Next, X.Output, SeedXs, UnixNanos;
  }

  /** The child's first uuid_v4_fast, whatever ran before it in the child, comes from a state
      seeded with 32 bytes that are slices of sources the child opened. */
  lemma ChildFirstV4Fast(env: Env, g: Globals, evs: seq<Event>)
    requires Healthy(env, g) && forall i :: 0 <= i < |evs| ==> !evs[i].GetV4Fast?
    ensures var c := Run(env, Fork(g), evs);
      var (c', o) := Step(env, c, GetV4Fast);
      var d := Rand(env, c.rng, 32).1;
      o.Uuids? ==>
        && d.Some?
        && var s := SeedXs(d.value.bytes);
        && Got(o) && Stamped(o.list[0], WordBytes(X.Output(s)) + WordBytes(X.Output(X.Next(s))), 4)
        && d.value.bytes == BytesOf(env, c'.rng.sources, d.value.slices)
        && c'.rng.given == c.rng.given + d.value.slices
        && forall k :: 0 <= k < |d.value.slices| ==> d.value.slices[k].src >= |g.rng.sources|
  {
    hide Rand, Step, Run, Inv, BytesOf, SeedXs, WordBytes, Stamped, FromOs;
    var c := Run(env, Fork(g), evs);
    StaysUnseeded(env, Fork(g), evs);
    ChildRunIsApart(env, g, evs);
    ChildRunIsApart(env, g, evs + [GetV4Fast]);
    RunSnoc(env, Fork(g), evs, GetV4Fast);
    V4FastCall(env, c);
    RandOk(env, c.rng, 32);
    var (c', o) := Step(env, c, GetV4Fast);
    var d := Rand(env, c.rng, 32).1;
    if o.Uuids? {
      forall k | 0 <= k < |d.value.slices|
        ensures d.value.slices[k].src >= |g.rng.sources|
      {
        assert c'.rng.given[|c.rng.given| + k] == d.value.slices[k];
      }
    }
  }

  lemma RunSnoc(env: Env, g: Globals, evs: seq<Event>, ev: Event)
    ensures Run(env, g, evs + [ev]) == Step(env, Run(env, g, evs), ev).0
  {
    assert (evs + [ev])[..|evs|] == evs;
  }

  /** The child's first live version 7 call shows its own reading over a fresh rand_b. */
  lemma ChildFirstV7(env: Env, g: Globals, evs: seq<Event>, clk: Clock)
    requires UnixNanos(clk).Some?
    requires forall i :: 0 <= i < |evs| ==> !evs[i].GetV7? && !evs[i].GetV7Batch?
    ensures var c := Run(env, Fork(g), evs);
      var (c', o) := Step(env, c, GetV7(clk));
      NewReading(env, c, c', o, UnixNanos(clk).value * 4096 / 1_000_000)
  {
    hide Step, Run, NewReading, UnixNanos;
    StaysUncounted(env, Fork(g), evs);
    V7Call(env, Run(env, Fork(g), evs), clk);
  }
}
