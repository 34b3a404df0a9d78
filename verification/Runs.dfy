/** What holds over every run: any sequence of calls, any clock readings (stalled,
    backward, failing), any random draws (also failing), any cipher. */
module Runs {
  import opened Bytes
  import opened Csprng
  import opened CsprngLemmas
  import opened Layout
  import opened Generators
  import Fields
  import X = Xoshiro

  // ---- families of monotonic output ----------------------------------------

  /** The live-clock outputs that share a mark each: versions 1 and 6 together (and
      each of them), version 2 with node and clock sequence both supplied, and version 7. */
  datatype Family = FamilyGreg | FamilyV1 | FamilyV6 | FamilyV2 | FamilyV7

  predicate Belongs(ev: Event, fam: Family) {
    match fam
    case FamilyGreg => ev.GetGreg?
    case FamilyV1 => ev.GetGreg? && !ev.six
    case FamilyV6 => ev.GetGreg? && ev.six
    case FamilyV2 => ev.GetV2? && ev.node.Some? && ev.cs.Some?
    case FamilyV7 => ev.GetV7? || ev.GetV7Batch?
  }

  /** Every UUID of a family that reached a caller in a run, in order. */
  function Emitted(env: Env, g: Globals, evs: seq<Event>, fam: Family): seq<Uuid> {
    if |evs| == 0 then []
    else
      var n := |evs| - 1;
      Emitted(env, g, evs[..n], fam) +
      if Belongs(evs[n], fam) && LastOutcome(env, g, evs).Uuids? then LastOutcome(env, g, evs).list else []
  }

  predicate NoFork(evs: seq<Event>) {
    forall i :: 0 <= i < |evs| ==> !evs[i].ForkChild?
  }

  // ---- ranks ---------------------------------------------------------------

  /** What orders a family: the timestamp the bytes show, or all of the bytes. */
  function Rank(fam: Family, u: Uuid): nat {
    match fam
    case FamilyGreg => if u[6] / 16 == 6 then TimestampV6(u) else TimestampV1(u)
    case FamilyV1 => TimestampV1(u)
    case FamilyV6 => TimestampV6(u)
    case FamilyV2 => VisibleV2(u)
    case FamilyV7 => Be(u)
  }

  /** The highest rank the state remembers to have given out. */
  function Mark(fam: Family, g: Globals): int {
    match fam
    case FamilyGreg => g.gregLast
    case FamilyV1 => g.gregLast
    case FamilyV6 => g.gregLast
    case FamilyV2 => g.v2Last
    case FamilyV7 => if g.v7Initialized then Be(V7OfKey(g.v7Key, g.v7RandB)) else -1
  }

  predicate HasShape(fam: Family, u: Uuid) {
    match fam
    case FamilyGreg => Version(u) == Some(1) || u[6] / 16 == 6
    case FamilyV1 => Version(u) == Some(1)
    case FamilyV6 => u[6] / 16 == 6
    case FamilyV2 => true
    case FamilyV7 => true
  }

  /** Ranks rise strictly, from above lo and to at most hi. */
  ghost predicate Rising(fam: Family, lo: int, us: seq<Uuid>, hi: int) {
    && lo <= hi
    && (forall i :: 0 <= i < |us| ==> HasShape(fam, us[i]) && lo < Rank(fam, us[i]) <= hi)
    && (forall i, j :: 0 <= i < j < |us| ==> Rank(fam, us[i]) < Rank(fam, us[j]))
  }

  lemma RisingConcat(fam: Family, a: int, us: seq<Uuid>, b: int, vs: seq<Uuid>, c: int)
    requires Rising(fam, a, us, b) && Rising(fam, b, vs, c)
    ensures Rising(fam, a, us + vs, c)
  {
    hide Rank, HasShape;
  }

  // ---- version 7 -----------------------------------------------------------

  /** fu_v7_increment is exact addition on (time key, rand_b) as one number, by
      1..2^24; it fails only when the draw does or 122 bits run out. */
  lemma IncrementAdds(env: Env, r: Rng, c: Counter)
    ensures var (r1, d) := Rand(env, r, 3);
      var (r2, c') := Increment(env, r, c);
      && r2 == r1
      && (c'.Some? <==> d.Some? && V7Number(c.key, c.randb) + StepOf(d.value.bytes) < TWO60 * TWO62)
      && (c'.Some? ==>
            V7Number(c'.value.key, c'.value.randb) == V7Number(c.key, c.randb) + StepOf(d.value.bytes))
  {
    hide Rand, StepOf;
  }

  lemma V7Rank(c: Counter, c': Counter)
    ensures Be(V7OfKey(c.key, c.randb)) < Be(V7OfKey(c'.key, c'.randb))
      <==> V7Number(c.key, c.randb) < V7Number(c'.key, c'.randb)
  {
    hide Be, V7OfKey, MemLess;
    V7Order(c.key, c.randb, c'.key, c'.randb);
    MemLessIsNumeric(V7OfKey(c.key, c.randb), V7OfKey(c'.key, c'.randb));
  }

  function RankOf(c: Counter): nat { Be(V7OfKey(c.key, c.randb)) }

  lemma IncrementRises(env: Env, r: Rng, c: Counter)
    ensures Increment(env, r, c).1.Some? ==> RankOf(c) < RankOf(Increment(env, r, c).1.value)
  {
    IncrementAdds(env, r, c);
    if Increment(env, r, c).1.Some? {
      V7Rank(c, Increment(env, r, c).1.value);
    }
  }

  lemma StartRises(env: Env, g: Globals, key: Time60)
    ensures Start(env, g, key).1.Some? ==> Mark(FamilyV7, g) < RankOf(Start(env, g, key).1.value)
  {
    hide Be, V7OfKey, Rand;
    var c := Counter(g.v7Key, g.v7RandB);
    if Start(env, g, key).1.Some? {
      if !g.v7Initialized {
      } else if key > g.v7Key {
        V7Rank(c, Start(env, g, key).1.value);
      } else {
        IncrementRises(env, g.rng, c);
      }
    }
  }

  lemma RisingOne(lo: int, c: Counter)
    requires lo < RankOf(c)
    ensures Rising(FamilyV7, lo, [V7OfKey(c.key, c.randb)], RankOf(c))
  {
  }

  lemma RisingNone(lo: int)
    ensures Rising(FamilyV7, lo, [], lo)
  {
  }

  lemma {:induction false} BatchTailRises(env: Env, r: Rng, c: Counter, n: nat)
    ensures var b := BatchTail(env, r, c, n);
      Rising(FamilyV7, RankOf(c), b.list, RankOf(b.counter))
    decreases n
  {
    hide Rising, RankOf, Increment, V7OfKey;
    if n == 0 {
      RisingNone(RankOf(c));
    } else {
      IncrementRises(env, r, c);
      var (r1, c1) := Increment(env, r, c);
      if c1.Some? {
        BatchTailRises(env, r1, c1.value, n - 1);
        var b := BatchTail(env, r1, c1.value, n - 1);
        var u := V7OfKey(c1.value.key, c1.value.randb);
        RisingOne(RankOf(c), c1.value);
        RisingConcat(FamilyV7, RankOf(c), [u], RankOf(c1.value), b.list, RankOf(b.counter));
      } else {
        RisingNone(RankOf(c));
      }
    }
  }

  lemma BatchRises(env: Env, g: Globals, clk: Clock, n: nat)
    requires n > 0
    ensures var (g', list, ok) := GenV7Batch(env, g, clk, n);
      Rising(FamilyV7, Mark(FamilyV7, g), list, Mark(FamilyV7, g'))
  {
    hide Rank, HasShape, Be, V7OfKey, Start, BatchTail, Rising;
    if UnixNanos(clk).None? {
      assert Rising(FamilyV7, Mark(FamilyV7, g), [], Mark(FamilyV7, g)) by { RisingNone(Mark(FamilyV7, g)); }
    } else {
      var key := TimeKey(UnixNanos(clk).value);
      StartRises(env, g, key);
      var (r, c) := Start(env, g, key);
      if c.Some? {
        BatchTailRises(env, r, c.value, n - 1);
        var b := BatchTail(env, r, c.value, n - 1);
        var u := V7OfKey(c.value.key, c.value.randb);
        RisingOne(Mark(FamilyV7, g), c.value);
        RisingConcat(FamilyV7, Mark(FamilyV7, g), [u], RankOf(c.value), b.list, RankOf(b.counter));
      } else {
        RisingNone(Mark(FamilyV7, g));
      }
    }
  }

  /** A single call is a batch of one. */
  lemma SingleIsBatchOfOne(env: Env, g: Globals, clk: Clock)
    ensures var (g1, u) := GenV7(env, g, clk);
      GenV7Batch(env, g, clk, 1) == (g1, if u.Some? then [u.value] else [], u.Some?)
  {
    hide Start, V7OfKey;
    if UnixNanos(clk).Some? {
      var (r, c) := Start(env, g, TimeKey(UnixNanos(clk).value));
      if c.Some? {
        assert BatchTail(env, r, c.value, 0) == Batch(r, c.value, [], true);
        assert [V7OfKey(c.value.key, c.value.randb)] + [] == [V7OfKey(c.value.key, c.value.randb)];
      }
    }
  }

  // ---- versions 1, 2 and 6 -------------------------------------------------

  lemma GregRises(env: Env, g: Globals, six: bool, clk: Clock, node: Option<Node>, cs: Option<ClockSeq>)
    ensures var (g', u) := GenGreg(env, g, six, clk, node, cs);
      && var us := if u.Some? then [u.value] else [];
      && Rising(FamilyGreg, g.gregLast, us, g'.gregLast)
      && Rising(if six then FamilyV6 else FamilyV1, g.gregLast, us, g'.gregLast)
  {
    hide LayTail, GregNow, V1, V6, TimestampV1, TimestampV6, Version;
    var (g1, t) := GregMonotonic(g, clk);
    if t.Some? {
      var (r, tail) := LayTail(env, g1.rng, node, cs);
      if tail.Some? {
        TailVariant(env, g1.rng, node, cs);
        if six {
          V6Timestamp(t.value, tail.value);
        } else {
          V1Timestamp(t.value, tail.value);
          VersionNibble(V1(t.value, tail.value));
        }
      }
    }
  }

  /** Supplied node and clock sequence are preserved, a defaulted node is multicast, and
      the timestamp shown is the mark. */
  lemma GregFields(env: Env, g: Globals, six: bool, clk: Clock, node: Option<Node>, cs: Option<ClockSeq>)
    ensures var (g', o) := GenGreg(env, g, six, clk, node, cs);
      o.Some? ==>
        var u := o.value;
        && (node.Some? ==> NodeOf(u) == node.value) && (node.None? ==> NodeOf(u)[0] % 2 == 1)
        && (cs.Some? ==> ClockSeqOf(u) == cs.value)
        && u[8] / 0x40 == 2 && u[6] / 16 == (if six then 6 else 1)
        && (if six then TimestampV6(u) else TimestampV1(u)) == g'.gregLast
  {
    hide Rand, GregNow, TimeV1, TimeV6, TimestampV1, TimestampV6, TailBytes, RandomClockSeq, Version;
    var (g1, t) := GregMonotonic(g, clk);
    if t.Some? {
      var (r, tail) := LayTail(env, g1.rng, node, cs);
      if tail.Some? {
        var n, c := TailParts(env, g1.rng, node, cs);
        TailReadsBack(if six then TimeV6(t.value) else TimeV1(t.value), n, c);
        TailVariant(env, g1.rng, node, cs);
        if six {
          V6Timestamp(t.value, tail.value);
        } else {
          V1Timestamp(t.value, tail.value);
          VersionNibble(V1(t.value, tail.value));
        }
      }
    }
  }

  lemma TailParts(env: Env, r: Rng, node: Option<Node>, cs: Option<ClockSeq>) returns (n: Node, c: ClockSeq)
    requires LayTail(env, r, node, cs).1.Some?
    ensures LayTail(env, r, node, cs).1.value == TailBytes(n, c)
    ensures node.Some? ==> n == node.value
    ensures node.None? ==> n[0] % 2 == 1
    ensures cs.Some? ==> c == cs.value
  {
    hide Rand, TailBytes;
    if cs.None? && node.None? {
      var x := Rand(env, r, 8).1.value.bytes;
      n, c := RandomNode(x[..6]), RandomClockSeq(x[6], x[7]);
    } else if cs.None? {
      var x := Rand(env, r, 2).1.value.bytes;
      n, c := node.value, RandomClockSeq(x[0], x[1]);
    } else if node.None? {
      n, c := RandomNode(Rand(env, r, 6).1.value.bytes), cs.value;
    } else {
      n, c := node.value, cs.value;
    }
  }

  lemma TailVariant(env: Env, r: Rng, node: Option<Node>, cs: Option<ClockSeq>)
    ensures LayTail(env, r, node, cs).1.Some? ==> LayTail(env, r, node, cs).1.value[0] / 0x40 == 2
  {
    hide Rand;
  }

  lemma V2Rises(env: Env, g: Globals, clk: Clock, id: LocalId, domain: byte, node: Option<Node>, cs: Option<ClockSeq>)
    ensures var (g', u) := GenV2(env, g, clk, id, domain, node, cs);
      if node.Some? && cs.Some? then Rising(FamilyV2, g.v2Last, if u.Some? then [u.value] else [], g'.v2Last)
      else g'.v2Last == g.v2Last
  {
    hide Rand, StampV2, V1, VisibleV2, GregNow;
    if node.Some? && cs.Some? {
      var (g1, t) := V2Monotonic(g, clk);
      if t.Some? {
        V2Visible(t.value, TailBytes(node.value, cs.value), id, domain);
      }
    }
  }

  // ---- the run theorem -----------------------------------------------------

  predicate OfGreg(fam: Family) {
    fam == FamilyGreg || fam == FamilyV1 || fam == FamilyV6
  }

  /** Calls outside a family leave its mark alone. */
  lemma OthersKeepMark(env: Env, g: Globals, ev: Event, fam: Family)
    requires !ev.ForkChild? && !Belongs(ev, fam)
    requires !(ev.GetGreg? && OfGreg(fam))
    ensures Mark(fam, Step(env, g, ev).0) == Mark(fam, g)
  {
    hide Rand, RandomBytes, V7OfKey, Be, Start, BatchTail, LayTail, StampV2, V1, V6, GregNow, SetVersion, LeBytes,
         X.Next, SeedXs;
  }

  /** Versions 1 and 6 share one mark: either moves it, only the family's own emit. */
  lemma GregStepRises(env: Env, g: Globals, ev: Event, fam: Family)
    requires ev.GetGreg? && OfGreg(fam)
    ensures var (g', o) := Step(env, g, ev);
      Rising(fam, Mark(fam, g), if Belongs(ev, fam) && o.Uuids? then o.list else [], Mark(fam, g'))
  {
    hide Rank, HasShape, GenGreg;
    GregRises(env, g, ev.six, ev.clk, ev.node, ev.cs);
  }

  lemma V7StepRises(env: Env, g: Globals, ev: Event)
    requires ev.GetV7? || ev.GetV7Batch?
    ensures var (g', o) := Step(env, g, ev);
      Rising(FamilyV7, Mark(FamilyV7, g), if o.Uuids? then o.list else [], Mark(FamilyV7, g'))
  {
    hide Rank, HasShape, GenV7, GenV7Batch, Mark;
    match ev
    case GetV7(clk) =>
      SingleIsBatchOfOne(env, g, clk);
      BatchRises(env, g, clk, 1);
    case GetV7Batch(clk, count) =>
      if 0 < count <= MAX_BATCH {
        BatchRises(env, g, clk, count);
      }
  }

  lemma StepRises(env: Env, g: Globals, ev: Event, fam: Family)
    requires !ev.ForkChild?
    ensures var (g', o) := Step(env, g, ev);
      Rising(fam, Mark(fam, g), if Belongs(ev, fam) && o.Uuids? then o.list else [], Mark(fam, g'))
  {
    hide Rank, HasShape, GenGreg, GenV2, GenV7, GenV7Batch;
    if ev.GetGreg? && OfGreg(fam) {
      GregStepRises(env, g, ev, fam);
    } else if !Belongs(ev, fam) {
      OthersKeepMark(env, g, ev, fam);
    } else if ev.GetV2? {
      V2Rises(env, g, ev.clk, ev.id, ev.domain, ev.node, ev.cs);
    } else {
      V7StepRises(env, g, ev);
    }
  }

  /** In every run without a fork, each family's ranks rise strictly, whatever
      other calls and failures come between. */
  lemma {:induction false} RunRises(env: Env, g: Globals, evs: seq<Event>, fam: Family)
    requires NoFork(evs)
    ensures Rising(fam, Mark(fam, g), Emitted(env, g, evs, fam), Mark(fam, Run(env, g, evs)))
    decreases |evs|
  {
    if |evs| > 0 {
      var n := |evs| - 1;
      RunRises(env, g, evs[..n], fam);
      var g1 := Run(env, g, evs[..n]);
      StepRises(env, g1, evs[n], fam);
      var (g2, o) := Step(env, g1, evs[n]);
      RisingConcat(fam, Mark(fam, g), Emitted(env, g, evs[..n], fam), Mark(fam, g1),
                   if Belongs(evs[n], fam) && o.Uuids? then o.list else [], Mark(fam, g2));
    }
  }

  ghost predicate MemSorted(us: seq<Uuid>) {
    forall i, j :: 0 <= i < j < |us| ==> MemLess(us[i], us[j])
  }

  /** Version 7 single and batch output is strictly increasing under memcmp. */
  lemma V7RunSorted(env: Env, g: Globals, evs: seq<Event>)
    requires NoFork(evs)
    ensures MemSorted(Emitted(env, g, evs, FamilyV7))
  {
    hide Be, MemLess;
    RunRises(env, g, evs, FamilyV7);
    var us := Emitted(env, g, evs, FamilyV7);
    forall i, j | 0 <= i < j < |us|
      ensures MemLess(us[i], us[j])
    {
      assert Rank(FamilyV7, us[i]) < Rank(FamilyV7, us[j]);
      MemLessIsNumeric(us[i], us[j]);
    }
  }

  /** Version 6 output is strictly increasing under memcmp, whatever the nodes. */
  lemma V6RunSorted(env: Env, g: Globals, evs: seq<Event>)
    requires NoFork(evs)
    ensures MemSorted(Emitted(env, g, evs, FamilyV6))
  {
    hide MemLess, TimestampV6;
    RunRises(env, g, evs, FamilyV6);
    var us := Emitted(env, g, evs, FamilyV6);
    forall i, j | 0 <= i < j < |us|
      ensures MemLess(us[i], us[j])
    {
      assert HasShape(FamilyV6, us[i]) && HasShape(FamilyV6, us[j]);
      assert Rank(FamilyV6, us[i]) < Rank(FamilyV6, us[j]);
      V6SortsByTime(us[i], us[j]);
    }
  }

  ghost predicate Distinct(us: seq<Uuid>) {
    forall i, j :: 0 <= i < j < |us| ==> us[i] != us[j]
  }

  /** Version 1 output never repeats, also with fixed node and clock sequence, and
      its OrderedTimeCodec encodings sort in the order of generation. */
  lemma V1RunDistinct(env: Env, g: Globals, evs: seq<Event>)
    requires NoFork(evs)
    ensures var us := Emitted(env, g, evs, FamilyV1);
      && Distinct(us)
      && (forall i :: 0 <= i < |us| ==> EncodeOrdered(us[i]).Some?)
      && (forall i, j :: 0 <= i < j < |us| ==> MemLess(EncodeOrdered(us[i]).value, EncodeOrdered(us[j]).value))
  {
    hide MemLess, TimestampV1, Version;
    RunRises(env, g, evs, FamilyV1);
    var us := Emitted(env, g, evs, FamilyV1);
    forall i, j | 0 <= i < j < |us|
      ensures us[i] != us[j] && EncodeOrdered(us[i]).Some? && EncodeOrdered(us[j]).Some?
      ensures MemLess(EncodeOrdered(us[i]).value, EncodeOrdered(us[j]).value)
    {
      assert HasShape(FamilyV1, us[i]) && HasShape(FamilyV1, us[j]);
      assert Rank(FamilyV1, us[i]) < Rank(FamilyV1, us[j]);
      OrderedSortsByTime(us[i], us[j]);
    }
    forall i | 0 <= i < |us|
      ensures EncodeOrdered(us[i]).Some?
    {
      assert HasShape(FamilyV1, us[i]);
    }
  }

  /** Version 2 with node and clock sequence supplied never repeats, though the
      local identifier and domain overwrite parts of both. */
  lemma V2RunDistinct(env: Env, g: Globals, evs: seq<Event>)
    requires NoFork(evs)
    ensures Distinct(Emitted(env, g, evs, FamilyV2))
  {
    RunRises(env, g, evs, FamilyV2);
    var us := Emitted(env, g, evs, FamilyV2);
    forall i, j | 0 <= i < j < |us|
      ensures us[i] != us[j]
    {
      assert Rank(FamilyV2, us[i]) < Rank(FamilyV2, us[j]);
    }
  }

  /** A version 1 UUID converted to version 6, a version 6 as it is. */
  function AsV6(u: Uuid): Uuid {
    if u[6] / 16 == 6 then u
    else
      match Fields.V6FromV1(u)
      case Some(c) => c
      case None => u
  }

  /** Versions 1 and 6 interleaved: with every version 1 converted, the whole output is
      strictly increasing, so no converted UUID equals another or a native version 6. */
  lemma GregRunSorted(env: Env, g: Globals, evs: seq<Event>)
    requires NoFork(evs)
    ensures var us := Emitted(env, g, evs, FamilyGreg);
      MemSorted(seq<Uuid>(|us|, i requires 0 <= i < |us| => AsV6(us[i])))
  {
    hide MemLess, TimestampV6, TimestampV1, Fields.V6FromV1;
    RunRises(env, g, evs, FamilyGreg);
    var us := Emitted(env, g, evs, FamilyGreg);
    forall i, j | 0 <= i < j < |us|
      ensures MemLess(AsV6(us[i]), AsV6(us[j]))
    {
      assert Rank(FamilyGreg, us[i]) < Rank(FamilyGreg, us[j]);
      Fields.ConversionKeepsTime(us[i]);
      Fields.ConversionKeepsTime(us[j]);
      V6SortsByTime(AsV6(us[i]), AsV6(us[j]));
    }
  }

  /** What a run's outcomes hold of a family, read off the outcomes alone. */
  function Collect(evs: seq<Event>, outs: seq<Outcome>, fam: Family): seq<Uuid>
    requires |outs| == |evs|
  {
    if |evs| == 0 then []
    else
      var n := |evs| - 1;
      Collect(evs[..n], outs[..n], fam) + if Belongs(evs[n], fam) && outs[n].Uuids? then outs[n].list else []
  }

  /** Each outcome is that of its call in the run. */
  ghost predicate OutcomesOf(env: Env, g: Globals, evs: seq<Event>, outs: seq<Outcome>) {
    |outs| == |evs| && forall i :: 0 <= i < |evs| ==> outs[i] == LastOutcome(env, g, evs[..i + 1])
  }

  lemma {:induction false} CollectIsEmitted(env: Env, g: Globals, evs: seq<Event>, outs: seq<Outcome>, fam: Family)
    requires OutcomesOf(env, g, evs, outs)
    ensures Collect(evs, outs, fam) == Emitted(env, g, evs, fam)
    decreases |evs|
  {
    hide Step, Run;
    if |evs| > 0 {
      var n := |evs| - 1;
      forall i | 0 <= i < n
        ensures outs[..n][i] == LastOutcome(env, g, evs[..n][..i + 1])
      {
        assert evs[..n][..i + 1] == evs[..i + 1];
      }
      CollectIsEmitted(env, g, evs[..n], outs[..n], fam);
      assert evs[..n + 1] == evs;
    }
  }

  /** What the outcomes of a run without a fork show the callers. */
  ghost predicate Ordered(evs: seq<Event>, outs: seq<Outcome>)
    requires |outs| == |evs|
  {
    && MemSorted(Collect(evs, outs, FamilyV7))
    && MemSorted(Collect(evs, outs, FamilyV6))
    && Distinct(Collect(evs, outs, FamilyV1))
    && Distinct(Collect(evs, outs, FamilyV2))
  }

  lemma OutcomesOrdered(env: Env, g: Globals, evs: seq<Event>, outs: seq<Outcome>)
    requires OutcomesOf(env, g, evs, outs) && NoFork(evs)
    ensures Ordered(evs, outs)
  {
    hide MemSorted, Distinct;
    CollectIsEmitted(env, g, evs, outs, FamilyV7);
    CollectIsEmitted(env, g, evs, outs, FamilyV6);
    CollectIsEmitted(env, g, evs, outs, FamilyV1);
    CollectIsEmitted(env, g, evs, outs, FamilyV2);
    V7RunSorted(env, g, evs);
    V6RunSorted(env, g, evs);
    V1RunDistinct(env, g, evs);
    V2RunDistinct(env, g, evs);
  }

  /** The fork handler forgets every mark: with fixed node and clock sequence and
      the same clock reading, the child repeats the parent's UUID. */
  lemma ForkRepeats(env: Env, clk: Clock, node: Node, cs: ClockSeq)
    requires UnixNanos(clk).Some?
    ensures var ev := GetGreg(false, clk, Some(node), Some(cs));
      var us := Emitted(env, InitGlobals(), [ev, ForkChild, ev], FamilyV1);
      |us| == 2 && us[0] == us[1]
  {
    var ev := GetGreg(false, clk, Some(node), Some(cs));
    var evs := [ev, ForkChild, ev];
    assert evs[..2] == [ev, ForkChild] && evs[..2][..1] == [ev] && evs[..2][..1][..0] == [];
    var g1 := Run(env, InitGlobals(), [ev]);
    assert [ev][..0] == [];
    assert [ev, ForkChild][..1] == [ev];
    assert Run(env, InitGlobals(), [ev, ForkChild]) == Fork(g1);
    assert Emitted(env, InitGlobals(), [ev, ForkChild], FamilyV1) == Emitted(env, InitGlobals(), [ev], FamilyV1);
  }
}
