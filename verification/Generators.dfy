/** The UUID generators of fast_uuid.c on values: every call is a function of the
    module globals, the clock reading and the process environment. */
module Generators {
  import opened Bytes
  import opened Csprng
  import opened Layout
  import opened Words
  import X = Xoshiro

  // ---- clock ---------------------------------------------------------------

  const NANOS := 1_000_000_000
  const GREG_UNIX_EPOCH := 0x01B21DD213814000

  type Nsec = x: int | 0 <= x < 1_000_000_000

  /** What clock_gettime(CLOCK_REALTIME) answers. */
  datatype Clock = ClockError | Reading(sec: int, nsec: Nsec)

  /** Wall-clock nanoseconds, or an exception: error, before 1970, past 64 bits. */
  function UnixNanos(clk: Clock): Option<Word> {
    match clk
    case ClockError => None
    case Reading(sec, nsec) =>
      if sec < 0 then None
      else if sec > (0xffff_ffff_ffff_ffff - nsec) / NANOS then None
      else Some(sec * NANOS + nsec)
  }

  /** The overflow guard, which never multiplies, rejects exactly what overflows. */
  lemma UnixNanosExact(clk: Clock)
    ensures UnixNanos(clk).Some? <==>
      clk.Reading? && 0 <= clk.sec && clk.sec * NANOS + clk.nsec <= 0xffff_ffff_ffff_ffff
  {
  }

  function GregNow(clk: Clock): Option<Time60> {
    match UnixNanos(clk)
    case None => None
    case Some(ns) => Some(ns / 100 + GREG_UNIX_EPOCH)
  }

  // ---- module globals ------------------------------------------------------

  type Visible = x: int | 0 <= x < 0x1000_0000

  datatype Globals = Globals(
    rng: Rng,
    v7Key: Time60, v7RandB: RandB, v7Initialized: bool,
    prng: X.Xs, prngSeeded: bool,
    gregLast: Time60, v2Last: Visible)

  function InitGlobals(): Globals {
    Globals(Ginit(), 0, 0, false, X.ZERO, false, 0, 0)
  }

  /** fu_atfork_child */
  function Fork(g: Globals): Globals {
    InitGlobals().(rng := ForkReset(g.rng))
  }

  // ---- versions 1, 2 and 6 -------------------------------------------------

  /** The shared version 1/6 mark moves past itself when the clock does not. */
  function GregMonotonic(g: Globals, clk: Clock): (Globals, Option<Time60>) {
    match GregNow(clk)
    case None => (g, None)
    case Some(now) =>
      if now <= g.gregLast then
        if g.gregLast == TWO60 - 1 then (g, None)
        else (g.(gregLast := g.gregLast + 1), Some(g.gregLast + 1))
      else (g.(gregLast := now), Some(now))
  }

  function V2Monotonic(g: Globals, clk: Clock): (Globals, Option<Time60>) {
    match GregNow(clk)
    case None => (g, None)
    case Some(now) =>
      var vis := now / TWO32;
      if vis <= g.v2Last then
        if g.v2Last == TWO28 - 1 then (g, None)
        else
          var vis: Visible := g.v2Last + 1;
          (g.(v2Last := vis), Some(vis * TWO32 + now % TWO32))
      else (g.(v2Last := vis), Some(vis * TWO32 + now % TWO32))
  }

  /** Sets the multicast bit. */
  function RandomNode(s: Node): Node {
    s[0 := if s[0] % 2 == 0 then s[0] + 1 else s[0]]
  }

  function RandomClockSeq(hi: byte, lo: byte): ClockSeq {
    (hi * 256 + lo) % 0x4000
  }

  /** Clock sequence and node, random where not supplied: one draw for both, or
      one draw each. */
  function LayTail(env: Env, r: Rng, node: Option<Node>, cs: Option<ClockSeq>): (Rng, Option<Tail>) {
    if cs.None? && node.None? then
      var (r1, d) := Rand(env, r, 8);
      if d.None? then (r1, None)
      else
        var x := d.value.bytes;
        (r1, Some(TailBytes(RandomNode(x[..6]), RandomClockSeq(x[6], x[7]))))
    else if cs.None? then
      var (r1, d) := Rand(env, r, 2);
      if d.None? then (r1, None)
      else (r1, Some(TailBytes(node.value, RandomClockSeq(d.value.bytes[0], d.value.bytes[1]))))
    else if node.None? then
      var (r1, d) := Rand(env, r, 6);
      if d.None? then (r1, None)
      else (r1, Some(TailBytes(RandomNode(d.value.bytes), cs.value)))
    else (r, Some(TailBytes(node.value, cs.value)))
  }

  /** Version 1 or 6 from the clock. The mark has moved even when the draw fails. */
  function GenGreg(env: Env, g: Globals, six: bool, clk: Clock, node: Option<Node>, cs: Option<ClockSeq>)
    : (Globals, Option<Uuid>)
  {
    var (g1, t) := GregMonotonic(g, clk);
    if t.None? then (g1, None)
    else
      var (r, tail) := LayTail(env, g1.rng, node, cs);
      (g1.(rng := r),
       if tail.None? then None
       else Some(if six then V6(t.value, tail.value) else V1(t.value, tail.value)))
  }

  function GenV2(env: Env, g: Globals, clk: Clock, id: LocalId, domain: byte,
                 node: Option<Node>, cs: Option<ClockSeq>): (Globals, Option<Uuid>)
  {
    var (g1, t) :=
      if node.Some? && cs.Some? then V2Monotonic(g, clk)
      else (g, GregNow(clk));
    if t.None? then (g1, None)
    else
      var (r, tail) := LayTail(env, g1.rng, node, cs);
      (g1.(rng := r), if tail.None? then None else Some(StampV2(V1(t.value, tail.value), id, domain)))
  }

  // ---- version 7 -----------------------------------------------------------

  /** Milliseconds and the 12-bit fraction of a millisecond. */
  function TimeKey(ns: Word): Time60 {
    var sub: Word := (ns % 1_000_000) * 4096 / 1_000_000;
    ns / 1_000_000 * TWO12 + sub
  }

  function StepOf(s: seq<byte>): (n: nat)
    requires |s| == 3
    ensures 1 <= n <= 0x100_0000
  {
    (s[0] as int) * 0x1_0000 + (s[1] as int) * 0x100 + s[2] + 1
  }

  datatype Counter = Counter(key: Time60, randb: RandB)

  /** Advances rand_b by a random step, carrying into the time key. */
  function Increment(env: Env, r: Rng, c: Counter): (Rng, Option<Counter>) {
    var (r1, d) := Rand(env, r, 3);
    if d.None? then (r1, None)
    else
      var next: Word := c.randb + StepOf(d.value.bytes);
      if next > TWO62 - 1 then
        if c.key == TWO60 - 1 then (r1, None)
        else (r1, Some(Counter(c.key + 1, next % TWO62)))
      else (r1, Some(Counter(c.key, next)))
  }

  /** The 8 bytes of fu_rand_u64, big-endian, cut to 62 bits. */
  function RandomRandB(s: seq<byte>): RandB
    requires |s| == 8
  {
    Be(s) % TWO62
  }

  function Start(env: Env, g: Globals, key: Time60): (Rng, Option<Counter>) {
    if !g.v7Initialized || key > g.v7Key then
      var (r, d) := Rand(env, g.rng, 8);
      (r, if d.None? then None else Some(Counter(key, RandomRandB(d.value.bytes))))
    else Increment(env, g.rng, Counter(g.v7Key, g.v7RandB))
  }

  function Commit(g: Globals, r: Rng, c: Counter): Globals {
    g.(rng := r, v7Key := c.key, v7RandB := c.randb, v7Initialized := true)
  }

  function GenV7(env: Env, g: Globals, clk: Clock): (Globals, Option<Uuid>) {
    match UnixNanos(clk)
    case None => (g, None)
    case Some(ns) =>
      var (r, c) := Start(env, g, TimeKey(ns));
      if c.None? then (g.(rng := r), None)
      else (Commit(g, r, c.value), Some(V7OfKey(c.value.key, c.value.randb)))
  }

  /** What a batch leaves: its generator state, counter, array and verdict. */
  datatype Batch = Batch(rng: Rng, counter: Counter, list: seq<Uuid>, ok: bool)

  function BatchTail(env: Env, r: Rng, c: Counter, n: nat): (b: Batch)
    ensures |b.list| <= n && (b.ok <==> |b.list| == n)
    decreases n
  {
    if n == 0 then Batch(r, c, [], true)
    else
      var (r1, c1) := Increment(env, r, c);
      if c1.None? then Batch(r1, c, [], false)
      else
        var b := BatchTail(env, r1, c1.value, n - 1);
        b.(list := [V7OfKey(c1.value.key, c1.value.randb)] + b.list)
  }

  /** fu_gen_v7_batch_n: one clock reading, n counter values, state written once at
      the end. The array is what was filled, also when the batch fails. */
  function GenV7Batch(env: Env, g: Globals, clk: Clock, n: nat): (Globals, seq<Uuid>, bool)
    requires n > 0
  {
    match UnixNanos(clk)
    case None => (g, [], false)
    case Some(ns) =>
      var (r, c) := Start(env, g, TimeKey(ns));
      if c.None? then (g.(rng := r), [], false)
      else
        var b := BatchTail(env, r, c.value, n - 1);
        (Commit(g, b.rng, b.counter), [V7OfKey(c.value.key, c.value.randb)] + b.list, b.ok)
  }

  /** n calls of fu_gen_v7 at one clock reading, up to the first that fails. */
  function Singles(env: Env, g: Globals, clk: Clock, n: nat): (Globals, seq<Uuid>, bool)
    decreases n
  {
    if n == 0 then (g, [], true)
    else
      var (g1, u) := GenV7(env, g, clk);
      if u.None? then (g1, [], false)
      else
        var (g2, us, ok) := Singles(env, g1, clk, n - 1);
        (g2, [u.value] + us, ok)
  }

  type Millis = x: int | 0 <= x < 0x1_0000_0000_0000
  type SubMs = x: int | 0 <= x < 4096

  function GenV7At(env: Env, g: Globals, ms: Millis, sub: SubMs): (Globals, Option<Uuid>) {
    var (r, d) := Rand(env, g.rng, 8);
    (g.(rng := r), if d.None? then None else Some(V7(ms, sub, RandomRandB(d.value.bytes))))
  }

  // ---- version 4 -----------------------------------------------------------

  function SetVersion(b: Uuid, version: nat): Uuid
    requires version < 16
  {
    b[6 := version * 16 + b[6] % 16][8 := 0x80 + b[8] % 64]
  }

  /** Stamping sets version and variant and keeps the other 122 bits. */
  lemma SetVersionKeepsRest(b: Uuid, version: nat)
    requires version < 16
    ensures var v := SetVersion(b, version);
      && v[6] / 16 == version && v[8] / 0x40 == 2
      && v[6] % 16 == b[6] % 16 && v[8] % 0x40 == b[8] % 0x40
      && forall i :: 0 <= i < 16 && i != 6 && i != 8 ==> v[i] == b[i]
  {
  }

  function GenV4(env: Env, g: Globals): (Globals, Option<Uuid>) {
    var (r, d) := Rand(env, g.rng, 16);
    (g.(rng := r), if d.None? then None else Some(SetVersion(d.value.bytes, 4)))
  }

  /** Eight bytes of memory read as a uint64_t, lowest first. */
  function LaneWord(s: seq<byte>): bv64
    requires |s| == 8
  {
    Lane(s[0]) | (Lane(s[1]) << 8) | (Lane(s[2]) << 16) | (Lane(s[3]) << 24) |
    (Lane(s[4]) << 32) | (Lane(s[5]) << 40) | (Lane(s[6]) << 48) | (Lane(s[7]) << 56)
  }

  /** The xoshiro state 32 random bytes seed; never all zero. */
  function SeedXs(s: seq<byte>): X.Xs
    requires |s| == 32
  {
    var x := X.Xs(LaneWord(s[..8]), LaneWord(s[8..16]), LaneWord(s[16..24]), LaneWord(s[24..]));
    if x == X.ZERO then x.(s0 := 0x9e3779b97f4a7c15) else x
  }

  /** fu_xs_next: seeds on first use; a failed draw leaves the state zeroed and unseeded. */
  function XsNext(env: Env, g: Globals): (Globals, Option<bv64>) {
    if g.prngSeeded then (g.(prng := X.Next(g.prng)), Some(X.Output(g.prng)))
    else
      var (r, d) := Rand(env, g.rng, 32);
      if d.None? then (g.(rng := r, prng := X.ZERO), None)
      else
        var x := SeedXs(d.value.bytes);
        (g.(rng := r, prng := X.Next(x), prngSeeded := true), Some(X.Output(x)))
  }

  /** A uint64_t as stored in memory. */
  function WordBytes(x: bv64): (s: seq<byte>)
    ensures |s| == 8
  {
    [LowByte(x), LowByte(x >> 8), LowByte(x >> 16), LowByte(x >> 24),
     LowByte(x >> 32), LowByte(x >> 40), LowByte(x >> 48), LowByte(x >> 56)]
  }

  function GenV4Fast(env: Env, g: Globals): (Globals, Option<Uuid>) {
    var (g1, a) := XsNext(env, g);
    if a.None? then (g1, None)
    else
      var (g2, c) := XsNext(env, g1);
      if c.None? then (g2, None)
      else (g2, Some(SetVersion(WordBytes(a.value) + WordBytes(c.value), 4)))
  }

  // ---- runs ----------------------------------------------------------------

  const MAX_BATCH := 100_000

  /** Everything a process can ask of the extension that touches its state.
      Draw(n) stands for the other callers of fu_rand, the version 4 batches. */
  datatype Event =
    | GetGreg(six: bool, clk: Clock, node: Option<Node>, cs: Option<ClockSeq>)
    | GetV2(clk: Clock, id: LocalId, domain: byte, node: Option<Node>, cs: Option<ClockSeq>)
    | GetV7(clk: Clock)
    | GetV7Batch(clk: Clock, count: int)
    | GetV7At(ms: Millis, sub: SubMs)
    | GetV4
    | GetV4Fast
    | GetRandomBytes(n: int)
    | GetDraw(size: nat)
    | ForkChild

  /** What the caller gets: an exception, UUIDs, raw bytes, or nothing. */
  datatype Outcome = Failed | Uuids(list: seq<Uuid>) | Raw(bytes: seq<byte>) | Silent

  function One(res: (Globals, Option<Uuid>)): (Globals, Outcome) {
    (res.0, if res.1.None? then Failed else Uuids([res.1.value]))
  }

  function Random(g: Globals, res: (Rng, Option<Draw>)): (Globals, Outcome) {
    (g.(rng := res.0), if res.1.None? then Failed else Raw(res.1.value.bytes))
  }

  function Step(env: Env, g: Globals, ev: Event): (Globals, Outcome) {
    match ev
    case GetGreg(six, clk, node, cs) => One(GenGreg(env, g, six, clk, node, cs))
    case GetV2(clk, id, domain, node, cs) => One(GenV2(env, g, clk, id, domain, node, cs))
    case GetV7(clk) => One(GenV7(env, g, clk))
    case GetV7Batch(clk, count) =>
      if count <= 0 || count > MAX_BATCH then (g, Failed)
      else
        var (g1, list, ok) := GenV7Batch(env, g, clk, count);
        (g1, if ok then Uuids(list) else Failed)
    case GetV7At(ms, sub) => One(GenV7At(env, g, ms, sub))
    case GetV4 => One(GenV4(env, g))
    case GetV4Fast => One(GenV4Fast(env, g))
    case GetRandomBytes(n) => Random(g, RandomBytes(env, g.rng, n))
    case GetDraw(n) => Random(g, Rand(env, g.rng, n))
    case ForkChild => (Fork(g), Silent)
  }

  /** The state after a run. */
  function Run(env: Env, g: Globals, evs: seq<Event>): Globals {
    if |evs| == 0 then g
    else Step(env, Run(env, g, evs[..|evs| - 1]), evs[|evs| - 1]).0
  }

  function LastOutcome(env: Env, g: Globals, evs: seq<Event>): Outcome
    requires |evs| > 0
  {
    Step(env, Run(env, g, evs[..|evs| - 1]), evs[|evs| - 1]).1
  }
}
