/** Invariants of every reachable state, and how far the marks can run ahead. */
module Reachable {
  import opened Bytes
  import opened Csprng
  import opened CsprngLemmas
  import opened SeedBudget
  import opened Forks
  import opened Layout
  import opened Generators
  import opened Runs
  import X = Xoshiro

  // ---- randomness ----------------------------------------------------------

  /** The generator's history is sound, and a seeded xoshiro state is not zero. */
  ghost predicate Healthy(env: Env, g: Globals) {
    && Inv(env, g.rng)
    && (g.prngSeeded ==> g.prng != X.ZERO)
  }

  /** What to watch along a run: whether seeds yield whole chunks only, and what is served
      since a point. */
  datatype Watch = Watch(whole: bool, since: Since)

  ghost predicate Kept(env: Env, g: Globals, w: Watch) {
    RngKept(env, g.rng, w) && (g.prngSeeded ==> g.prng != X.ZERO)
  }

  ghost predicate RngKept(env: Env, r: Rng, w: Watch) {
    Inv(env, r) && Apart(env, r, w.since) && (w.whole ==> Aligned(r))
  }

  lemma RandKept(env: Env, r: Rng, n: nat, w: Watch)
    requires RngKept(env, r, w) && (w.whole && n > CHUNK ==> n % CHUNK == 0)
    ensures RngKept(env, Rand(env, r, n).0, w)
  {
    hide Rand, Aligned, Apart;
    RandOk(env, r, n);
    RandApart(env, r, n, w.since);
    if w.whole { RandAligned(env, r, n); }
  }

  lemma RandomBytesKept(env: Env, r: Rng, n: int, w: Watch)
    requires RngKept(env, r, w) && (w.whole ==> WholeChunks(n))
    ensures RngKept(env, RandomBytes(env, r, n).0, w)
  {
    hide RandomBytes, Aligned, Apart;
    RandomBytesOk(env, r, n);
    RandomBytesApart(env, r, n, w.since);
    if w.whole { RandomBytesAligned(env, r, n); }
  }

  lemma ForkKept(env: Env, r: Rng, w: Watch)
    requires RngKept(env, r, w)
    ensures RngKept(env, ForkReset(r), w)
  {
    hide Inv;
    ForkOk(env, r, 1);
  }

  lemma TailKept(env: Env, r: Rng, node: Option<Node>, cs: Option<ClockSeq>, w: Watch)
    requires RngKept(env, r, w)
    ensures RngKept(env, LayTail(env, r, node, cs).0, w)
  {
    hide Rand, RngKept;
    RandKept(env, r, 8, w);
    RandKept(env, r, 2, w);
    RandKept(env, r, 6, w);
  }

  lemma StartKept(env: Env, g: Globals, key: Time60, w: Watch)
    requires RngKept(env, g.rng, w)
    ensures RngKept(env, Start(env, g, key).0, w)
  {
    hide Rand, RngKept;
    RandKept(env, g.rng, 8, w);
    RandKept(env, g.rng, 3, w);
  }

  lemma {:induction false} BatchTailKept(env: Env, r: Rng, c: Counter, n: nat, w: Watch)
    requires RngKept(env, r, w)
    ensures RngKept(env, BatchTail(env, r, c, n).rng, w)
    decreases n
  {
    hide Rand, RngKept;
    if n > 0 {
      RandKept(env, r, 3, w);
      var (r1, c1) := Increment(env, r, c);
      if c1.Some? {
        BatchTailKept(env, r1, c1.value, n - 1, w);
      }
    }
  }

  lemma XsKept(env: Env, g: Globals, w: Watch)
    requires Kept(env, g, w)
    ensures Kept(env, XsNext(env, g).0, w)
    ensures XsNext(env, g).1.Some? ==> XsNext(env, g).0.prngSeeded
  {
    hide Rand, Inv, Aligned, Apart, X.Next, X.Output, LaneWord;
    RandKept(env, g.rng, 32, w);
    if g.prngSeeded {
      X.NextIsBijective(g.prng);
    } else {
      var d := Rand(env, g.rng, 32).1;
      if d.Some? {
        X.NextIsBijective(SeedXs(d.value.bytes));
      }
    }
  }

  /** The call takes random bytes from the buffer, or whole chunks. */
  predicate Whole(ev: Event) {
    match ev
    case GetRandomBytes(n) => WholeChunks(n)
    case GetDraw(size) => size > CHUNK ==> size % CHUNK == 0
    case _ => true
  }

  lemma StepKept(env: Env, g: Globals, ev: Event, w: Watch)
    requires Kept(env, g, w) && (w.whole ==> Whole(ev))
    ensures Kept(env, Step(env, g, ev).0, w)
  {
    hide Rand, RandomBytes, Inv, Aligned, Apart, X.Next, LayTail, Start, BatchTail, XsNext, V7OfKey, V7, V1, V6,
         StampV2, SetVersion, GregNow, ForkReset, LeBytes;
    match ev
    case GetGreg(six, clk, node, cs) =>
      TailKept(env, g.rng, node, cs, w);
    case GetV2(clk, id, domain, node, cs) =>
      TailKept(env, g.rng, node, cs, w);
    case GetV7(clk) =>
      if UnixNanos(clk).Some? { StartKept(env, g, TimeKey(UnixNanos(clk).value), w); }
    case GetV7Batch(clk, count) =>
      if UnixNanos(clk).Some? && 0 < count <= MAX_BATCH {
        StartKept(env, g, TimeKey(UnixNanos(clk).value), w);
        var (r, c) := Start(env, g, TimeKey(UnixNanos(clk).value));
        if c.Some? { BatchTailKept(env, r, c.value, count - 1, w); }
      }
    case GetV7At(ms, sub) =>
      RandKept(env, g.rng, 8, w);
    case GetV4 =>
      RandKept(env, g.rng, 16, w);
    case GetV4Fast =>
      XsKept(env, g, w);
      XsKept(env, XsNext(env, g).0, w);
    case GetRandomBytes(n) =>
      RandomBytesKept(env, g.rng, n, w);
    case GetDraw(n) =>
      RandKept(env, g.rng, n, w);
    case ForkChild =>
      ForkKept(env, g.rng, w);
  }

  lemma {:induction false} RunKept(env: Env, g: Globals, evs: seq<Event>, w: Watch)
    requires Kept(env, g, w) && (w.whole ==> forall i :: 0 <= i < |evs| ==> Whole(evs[i]))
    ensures Kept(env, Run(env, g, evs), w)
    decreases |evs|
  {
    hide Kept;
    if |evs| > 0 {
      var n := |evs| - 1;
      RunKept(env, g, evs[..n], w);
      StepKept(env, Run(env, g, evs[..n]), evs[n], w);
    }
  }

  lemma InitKept(env: Env, whole: bool)
    ensures Kept(env, InitGlobals(), Watch(whole, Since(0, 0, 0)))
  {
    GinitOk(env);
    GinitApart(env);
  }

  /** Every reachable state is healthy, forks and failures included. */
  lemma RunHealthy(env: Env, evs: seq<Event>)
    ensures Healthy(env, Run(env, InitGlobals(), evs))
  {
    InitKept(env, false);
    RunKept(env, InitGlobals(), evs, Watch(false, Since(0, 0, 0)));
  }

  /** A forked child, whatever it runs and forks in turn, serves only from sources it opened
      itself, and these begin with OS output it obtained itself. */
  lemma ChildRunIsApart(env: Env, g: Globals, evs: seq<Event>)
    requires Healthy(env, g)
    ensures Healthy(env, Run(env, Fork(g), evs))
    ensures Apart(env, Run(env, Fork(g), evs).rng, Now(g.rng))
  {
    ForkOk(env, g.rng, 1);
    ForkApart(env, g.rng);
    RunKept(env, Fork(g), evs, Watch(false, Now(g.rng)));
  }

  // ---- the seed budget of a run --------------------------------------------

  /** A run keeps within 64 KiB of each seed if its calls take whole chunks only. */
  lemma RunBudget(env: Env, evs: seq<Event>)
    requires forall i :: 0 <= i < |evs| ==> Whole(evs[i])
    ensures WithinBudget(0, Run(env, InitGlobals(), evs).rng.sources)
  {
    InitKept(env, true);
    RunKept(env, InitGlobals(), evs, Watch(true, Since(0, 0, 0)));
  }

  /** Every call takes whole chunks or is fast_uuid_random_bytes(n). */
  ghost predicate WholeOr(evs: seq<Event>, n: int) {
    forall i :: 0 <= i < |evs| ==> Whole(evs[i]) || evs[i] == GetRandomBytes(n)
  }

  /** Programs that draw n bytes at a time keep within 64 KiB of each seed in all their
      runs exactly when n takes whole chunks. */
  lemma SizeBudgetIff(env: Env, n: int)
    requires env.aes && forall k :: env.os(k).OsBytes?
    ensures (forall evs :: WholeOr(evs, n) ==> WithinBudget(0, Run(env, InitGlobals(), evs).rng.sources))
      <==> WholeChunks(n)
  {
    hide WithinBudget, RandomBytes, WholeChunks;
    if WholeChunks(n) {
      forall evs | WholeOr(evs, n)
        ensures WithinBudget(0, Run(env, InitGlobals(), evs).rng.sources)
      {
        RunBudget(env, evs);
      }
    } else {
      var first, next := GetRandomBytes(n), GetRandomBytes(RESEED_BYTES);
      var evs := [first, next];
      assert evs[..1] == [first] && [first][..0] == [];
      assert Run(env, InitGlobals(), [first]).rng == RandomBytes(env, Ginit(), n).0;
      WholeSeed();
      OddDrawOutlives64K(env, n);
      assert WholeOr(evs, n) && !WithinBudget(0, Run(env, InitGlobals(), evs).rng.sources);
    }
  }

  lemma WholeSeed()
    ensures WholeChunks(RESEED_BYTES)
  {
  }

  /** In every run no random byte reaches two callers, no OS answer is used twice, no
      served byte comes from a cipher input behind a successor key, every key serves at
      most 8 KiB, and at most 73727 bytes come between two OS reseeds. */
  lemma RunNeverReuses(env: Env, evs: seq<Event>)
    ensures var r := Run(env, InitGlobals(), evs).rng;
      && NoReuse(r.given)
      && OsOnce(r.sources, r.calls)
      && (forall i :: 0 <= i < |r.given| ==> ApartFromKey(r.sources, r.given[i]))
      && (forall k :: 0 <= k <= |r.sources| ==> SinceSeed(r.sources[..k]) <= 73727)
  {
    RunHealthy(env, evs);
    var r := Run(env, InitGlobals(), evs).rng;
    forall i | 0 <= i < |r.given|
      ensures ApartFromKey(r.sources, r.given[i])
    {
      KeyBytesAreNeverServed(env, r, i);
    }
    forall k | 0 <= k <= |r.sources|
      ensures SinceSeed(r.sources[..k]) <= 73727
    {
      SinceSeedBound(env, r.sources, k);
    }
  }

  // ---- batches -------------------------------------------------------------

  /** The key the state remembers is at least the clock's, so a further call at the
      same reading counts on from the state. */
  lemma StartContinues(env: Env, g: Globals, r: Rng, c: Counter, key: Time60)
    requires key <= c.key
    ensures Start(env, Commit(g, r, c), key) == Increment(env, r, c)
  {
  }

  lemma IncrementKeepsKey(env: Env, r: Rng, c: Counter)
    ensures Increment(env, r, c).1.Some? ==> c.key <= Increment(env, r, c).1.value.key
  {
    hide Rand, StepOf;
  }

  lemma {:induction false} BatchTailIsSingles(env: Env, g: Globals, r: Rng, c: Counter, clk: Clock, n: nat)
    requires UnixNanos(clk).Some? && TimeKey(UnixNanos(clk).value) <= c.key
    ensures var b := BatchTail(env, r, c, n);
      Singles(env, Commit(g, r, c), clk, n) == (Commit(g, b.rng, b.counter), b.list, b.ok)
    decreases n
  {
    hide Increment, V7OfKey, TimeKey, UnixNanos;
    if n > 0 {
      StartContinues(env, g, r, c, TimeKey(UnixNanos(clk).value));
      IncrementKeepsKey(env, r, c);
      var (r1, c1) := Increment(env, r, c);
      if c1.Some? {
        assert Commit(Commit(g, r, c), r1, c1.value) == Commit(g, r1, c1.value);
        BatchTailIsSingles(env, g, r1, c1.value, clk, n - 1);
      } else {
        assert Commit(g, r, c).(rng := r1) == Commit(g, r1, c);
      }
    }
  }

  /** A batch of n is n single calls at one clock reading: the same UUIDs, the same
      random bytes drawn, the same final state; and when a draw fails, the same
      prefix and the same committed state. */
  lemma BatchIsSingles(env: Env, g: Globals, clk: Clock, n: nat)
    requires n > 0
    ensures GenV7Batch(env, g, clk, n) == Singles(env, g, clk, n)
  {
    hide V7OfKey, TimeKey, UnixNanos, Rand;
    if UnixNanos(clk).Some? {
      var key := TimeKey(UnixNanos(clk).value);
      var (r, c) := Start(env, g, key);
      if c.Some? {
        assert key <= c.value.key by {
          if g.v7Initialized && key <= g.v7Key { IncrementKeepsKey(env, g.rng, Counter(g.v7Key, g.v7RandB)); }
        }
        BatchTailIsSingles(env, g, r, c.value, clk, n - 1);
      }
    }
  }

  // ---- version 7 and the clock ---------------------------------------------

  /** Milliseconds and fraction together are the reading in units of 1/4096 ms. */
  lemma TimeKeyIsFloor(ns: Word)
    ensures TimeKey(ns) == ns * 4096 / 1_000_000
  {
    var ms, f := ns / 1_000_000, ns % 1_000_000;
    assert ns * 4096 == ms * 4096 * 1_000_000 + f * 4096;
  }

  /** A version 7 call never shows a time before its clock reading, shows exactly the
      reading when that is new, and changes no counter when it fails. */
  lemma V7ShowsTheClock(env: Env, g: Globals, clk: Clock)
    ensures var (g', u) := GenV7(env, g, clk);
      if u.None? then g' == g.(rng := g'.rng)
      else
        && g'.v7Initialized && u.value == V7OfKey(g'.v7Key, g'.v7RandB)
        && TimeKey(UnixNanos(clk).value) <= g'.v7Key
        && (!g.v7Initialized || TimeKey(UnixNanos(clk).value) > g.v7Key ==>
              g'.v7Key == TimeKey(UnixNanos(clk).value))
  {
    hide Rand, TimeKey, V7OfKey, RandomRandB, Increment;
    if UnixNanos(clk).Some? && g.v7Initialized {
      IncrementKeepsKey(env, g.rng, Counter(g.v7Key, g.v7RandB));
    }
  }

  // ---- version 7 drift -----------------------------------------------------

  /** UUIDs a call may count. */
  function Asked(ev: Event): nat {
    match ev
    case GetV7(_) => 1
    case GetV7Batch(_, count) => if 0 < count <= MAX_BATCH then count else 0
    case _ => 0
  }

  function AskedIn(evs: seq<Event>): nat {
    if |evs| == 0 then 0 else AskedIn(evs[..|evs| - 1]) + Asked(evs[|evs| - 1])
  }

  /** No version 7 call in the run reads a clock whose time key exceeds top. */
  predicate ClockAtMost(ev: Event, top: nat) {
    (ev.GetV7? || ev.GetV7Batch?) && UnixNanos(ev.clk).Some? ==> TimeKey(UnixNanos(ev.clk).value) <= top
  }

  /** The counter is at most n largest steps past the last rand_b of the top key. */
  ghost predicate Within(g: Globals, top: nat, n: nat) {
    g.v7Initialized ==> V7Number(g.v7Key, g.v7RandB) < (top + 1) * TWO62 + n * 0x100_0000
  }

  lemma StartWithin(env: Env, g: Globals, key: Time60, top: nat, n: nat)
    requires key <= top && Within(g, top, n)
    ensures var c := Start(env, g, key).1;
      c.Some? ==> V7Number(c.value.key, c.value.randb) < (top + 1) * TWO62 + (n + 1) * 0x100_0000
  {
    hide Rand, StepOf, RandomRandB;
    if g.v7Initialized && key <= g.v7Key {
      IncrementAdds(env, g.rng, Counter(g.v7Key, g.v7RandB));
    }
  }

  /** m increments add at most m * 2^24. */
  lemma {:induction false} BatchTailAdds(env: Env, r: Rng, c: Counter, m: nat)
    ensures var c' := BatchTail(env, r, c, m).counter;
      V7Number(c'.key, c'.randb) <= V7Number(c.key, c.randb) + m * 0x100_0000
    decreases m
  {
    hide Rand, StepOf, Increment, V7OfKey, V7Number;
    if m > 0 {
      IncrementAdds(env, r, c);
      var (r1, c1) := Increment(env, r, c);
      if c1.Some? {
        BatchTailAdds(env, r1, c1.value, m - 1);
      }
    }
  }

  /** Ties move the time key by at most 1 + floor(m / 2^38); a batch carries at most once. */
  lemma TiesCarryRarely(env: Env, r: Rng, c: Counter, m: nat)
    ensures var c' := BatchTail(env, r, c, m).counter;
      && c.key <= c'.key <= c.key + 1 + m / 0x40_0000_0000
      && (m <= MAX_BATCH ==> c'.key <= c.key + 1)
  {
    hide BatchTail;
    BatchTailAdds(env, r, c, m);
    BatchTailRises(env, r, c, m);
    var c' := BatchTail(env, r, c, m).counter;
    if V7Number(c'.key, c'.randb) < V7Number(c.key, c.randb) {
      V7Rank(c', c);
    }
  }

  lemma StepWithin(env: Env, g: Globals, ev: Event, top: nat, n: nat)
    requires !ev.ForkChild? && ClockAtMost(ev, top) && Within(g, top, n)
    ensures Within(Step(env, g, ev).0, top, n + Asked(ev))
  {
    hide Rand, RandomBytes, V7OfKey, Start, BatchTail, LayTail, StampV2, V1, V6, GregNow, SetVersion, LeBytes,
         X.Next, SeedXs, V7Number, TimeKey, UnixNanos;
    if (ev.GetV7? || ev.GetV7Batch?) && UnixNanos(ev.clk).Some? {
      var key := TimeKey(UnixNanos(ev.clk).value);
      StartWithin(env, g, key, top, n);
      var (r, c) := Start(env, g, key);
      if c.Some? && ev.GetV7Batch? && 0 < ev.count <= MAX_BATCH {
        BatchTailAdds(env, r, c.value, ev.count - 1);
      }
    }
  }

  /** Over a whole run the time key leads the highest clock key seen by at most
      one, and one more for each 2^38 UUIDs asked for. */
  lemma {:induction false} RunDrift(env: Env, g: Globals, evs: seq<Event>, top: nat, n: nat)
    requires NoFork(evs) && Within(g, top, n)
    requires forall i :: 0 <= i < |evs| ==> ClockAtMost(evs[i], top)
    ensures var g' := Run(env, g, evs);
      && Within(g', top, n + AskedIn(evs))
      && (g'.v7Initialized ==> g'.v7Key <= top + 1 + (n + AskedIn(evs)) / 0x40_0000_0000)
    decreases |evs|
  {
    hide Step, ClockAtMost;
    if |evs| > 0 {
      var k := |evs| - 1;
      RunDrift(env, g, evs[..k], top, n);
      StepWithin(env, Run(env, g, evs[..k]), evs[k], top, n + AskedIn(evs[..k]));
    }
    WithinKey(Run(env, g, evs), top, n + AskedIn(evs));
  }

  lemma WithinKey(g: Globals, top: nat, m: nat)
    requires Within(g, top, m)
    ensures g.v7Initialized ==> g.v7Key <= top + 1 + m / 0x40_0000_0000
  {
    var q := m / 0x40_0000_0000;
    assert m * 0x100_0000 < (q + 1) * TWO62;
  }

  // ---- the version 1 and 6 mark --------------------------------------------

  /** The mark after readings cs: past itself when a reading is not past it. */
  function MarkAfter(last: nat, cs: seq<nat>): nat {
    if |cs| == 0 then last
    else
      var m := MarkAfter(last, cs[..|cs| - 1]);
      if cs[|cs| - 1] <= m then m + 1 else cs[|cs| - 1]
  }

  /** The two marks with a clock: versions 1 and 6, and the visible one of version 2. */
  predicate Clocked(fam: Family) { fam == FamilyGreg || fam == FamilyV2 }

  function Top(fam: Family): nat { if fam == FamilyV2 then TWO28 - 1 else TWO60 - 1 }

  /** What a reading shows of the time in a family: all of it, or the upper 28 bits. */
  function Seen(fam: Family, now: Time60): nat { if fam == FamilyV2 then now / TWO32 else now }

  /** The readings that moved a mark in a run: those of its calls, unless the clock failed
      or the mark was used up. */
  function Readings(env: Env, g: Globals, evs: seq<Event>, fam: Family): seq<nat> {
    if |evs| == 0 then []
    else
      var n := |evs| - 1;
      Readings(env, g, evs[..n], fam) +
      if Moves(Run(env, g, evs[..n]), evs[n], fam) then [Seen(fam, GregNow(evs[n].clk).value)] else []
  }

  predicate Moves(g: Globals, ev: Event, fam: Family) {
    (ev.GetGreg? || ev.GetV2?) && Belongs(ev, fam) && GregNow(ev.clk).Some? && Mark(fam, g) != Top(fam)
  }

  lemma StepMark(env: Env, g: Globals, ev: Event, fam: Family)
    requires !ev.ForkChild? && Clocked(fam)
    ensures Mark(fam, g) >= 0
    ensures Mark(fam, Step(env, g, ev).0) ==
      if Moves(g, ev, fam) then MarkAfter(Mark(fam, g), [Seen(fam, GregNow(ev.clk).value)]) else Mark(fam, g)
  {
    hide GregNow, LayTail, V1, V6, StampV2;
    if !Belongs(ev, fam) {
      OthersKeepMark(env, g, ev, fam);
    } else if Moves(g, ev, fam) {
      var now := Seen(fam, GregNow(ev.clk).value);
      assert [now][..0] == [];
    }
  }

  /** After a run each mark is the mark sequence of its readings. */
  lemma {:induction false} RunMark(env: Env, g: Globals, evs: seq<Event>, fam: Family)
    requires NoFork(evs) && Clocked(fam)
    ensures Mark(fam, g) >= 0
    ensures Mark(fam, Run(env, g, evs)) == MarkAfter(Mark(fam, g), Readings(env, g, evs, fam))
    decreases |evs|
  {
    hide Step, Moves, Seen, Mark;
    MarkIsNat(g, fam);
    if |evs| > 0 {
      var n := |evs| - 1;
      RunMark(env, g, evs[..n], fam);
      var g1 := Run(env, g, evs[..n]);
      StepMark(env, g1, evs[n], fam);
      var rs := Readings(env, g, evs[..n], fam);
      if Moves(g1, evs[n], fam) {
        MovesReads(g1, evs[n], fam);
        var now := Seen(fam, GregNow(evs[n].clk).value);
        assert (rs + [now])[..|rs|] == rs;
        assert [now][..0] == [];
      } else {
        assert rs + [] == rs;
      }
    }
  }

  lemma MarkIsNat(g: Globals, fam: Family)
    requires Clocked(fam)
    ensures Mark(fam, g) >= 0
  {
  }

  lemma MovesReads(g: Globals, ev: Event, fam: Family)
    requires Moves(g, ev, fam)
    ensures (ev.GetGreg? || ev.GetV2?) && GregNow(ev.clk).Some?
  {
  }

  /** Closed form: the mark is the largest of the initial mark plus the number of
      calls and, over the calls, the reading plus the number of calls since. */
  lemma {:induction false} MarkClosedForm(last: nat, cs: seq<nat>)
    ensures var n := |cs|; var m := MarkAfter(last, cs);
      && m >= last + n
      && (forall i :: 0 <= i < n ==> m >= cs[i] + (n - 1 - i))
      && (m == last + n || exists i :: 0 <= i < n && m == cs[i] + (n - 1 - i))
    decreases |cs|
  {
    if |cs| > 0 {
      var k := |cs| - 1;
      var ds := cs[..k];
      MarkClosedForm(last, ds);
      var m, m' := MarkAfter(last, ds), MarkAfter(last, cs);
      forall i | 0 <= i < |cs|
        ensures m' >= cs[i] + (|cs| - 1 - i)
      {
        if i < k {
          assert m >= ds[i] + (k - 1 - i);
        }
      }
      if m' == m + 1 && m != last + k {
        var i :| 0 <= i < k && m == ds[i] + (k - 1 - i);
        assert m' == cs[i] + (|cs| - 1 - i);
      } else if m' != m + 1 {
        assert m' == cs[k] + (|cs| - 1 - k);
      }
    }
  }

  /** The marks are the least strictly rising sequence that dominates the clock. */
  lemma {:induction false} MarkIsLeast(last: nat, cs: seq<nat>, h: seq<nat>)
    requires |h| == |cs|
    requires forall i :: 0 <= i < |h| ==> last < h[i] && cs[i] <= h[i]
    requires forall i, j :: 0 <= i < j < |h| ==> h[i] < h[j]
    ensures |cs| > 0 ==> MarkAfter(last, cs) <= h[|h| - 1]
    decreases |cs|
  {
    if |cs| > 0 {
      MarkIsLeast(last, cs[..|cs| - 1], h[..|h| - 1]);
    }
  }

  /** A version 1 or 6 call can fail at the mark only by a clock failure or after
      the 60-bit timestamps are used up, and then moves nothing. */
  lemma GregFailsIff(g: Globals, clk: Clock)
    ensures var (g', t) := GregMonotonic(g, clk);
      && (t.None? <==> GregNow(clk).None? || g.gregLast == TWO60 - 1)
      && (t.None? ==> g' == g)
      && (t.Some? ==> g.gregLast < t.value == g'.gregLast)
  {
  }

  /** The same for the 28 visible bits of version 2. */
  lemma V2FailsIff(g: Globals, clk: Clock)
    ensures var (g', t) := V2Monotonic(g, clk);
      && (t.None? <==> GregNow(clk).None? || g.v2Last == TWO28 - 1)
      && (t.None? ==> g' == g)
      && (t.Some? ==> g.v2Last < t.value / TWO32 == g'.v2Last)
  {
  }

  /** Once the 60-bit timestamps are used up, versions 1 and 6 emit nothing more, whatever
      the clock reads later. */
  lemma GregExhaustedForGood(env: Env, g: Globals, evs: seq<Event>)
    requires NoFork(evs) && g.gregLast == TWO60 - 1
    ensures Run(env, g, evs).gregLast == TWO60 - 1
    ensures Emitted(env, g, evs, FamilyV1) == Emitted(env, g, evs, FamilyV6) == []
  {
    ExhaustedForGood(env, g, evs, FamilyV1);
    ExhaustedForGood(env, g, evs, FamilyV6);
  }

  /** The same for version 2 with node and clock sequence supplied. */
  lemma V2ExhaustedForGood(env: Env, g: Globals, evs: seq<Event>)
    requires NoFork(evs) && g.v2Last == TWO28 - 1
    ensures Run(env, g, evs).v2Last == TWO28 - 1 && Emitted(env, g, evs, FamilyV2) == []
  {
    ExhaustedForGood(env, g, evs, FamilyV2);
  }

  /** A mark that cannot rise stays, and nothing is emitted past it. */
  lemma ExhaustedForGood(env: Env, g: Globals, evs: seq<Event>, fam: Family)
    requires NoFork(evs) && Mark(fam, Run(env, g, evs)) <= Mark(fam, g)
    ensures Mark(fam, Run(env, g, evs)) == Mark(fam, g) && Emitted(env, g, evs, fam) == []
  {
    hide Rank, HasShape, Mark;
    var us := Emitted(env, g, evs, fam);
    var first := if |us| > 0 then Rank(fam, us[0]) else 0;
    RunRises(env, g, evs, fam);
  }
}
