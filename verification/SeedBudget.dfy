/** How much one seed yields. SECURITY.md promises OS entropy every 64 KiB; here is
    exactly when a draw and a run keep that promise. */
module SeedBudget {
  import opened Bytes
  import opened Csprng
  import opened CsprngLemmas

  /** No source past the first `before` brings what one seed has yielded over 64 KiB. */
  ghost predicate WithinBudget(before: nat, sources: seq<Source>) {
    forall k :: before < k <= |sources| ==> SinceSeed(sources[..k]) <= RESEED_BYTES
  }

  // ---- one call ------------------------------------------------------------

  /** A fill of n bytes starts with a reseed, starts at a multiple of the chunk, or
      ends within 64 KiB. */
  predicate FillFits(r: Rng, n: nat) {
    n == 0 || NeedsReseed(r) || r.since % CHUNK == 0 || r.since + n <= RESEED_BYTES
  }

  lemma RoundCounts(env: Env, r: Rng, n: nat)
    requires DrbgOk(env, r) && env.aes && n > 0
    ensures var (r', ok) := Round(env, r, n);
      && DrbgOk(env, r')
      && if ok then
           r'.seeded && r'.since == (if NeedsReseed(r) then 0 else r.since) + Min(n, CHUNK) == SinceSeed(r'.sources)
         else NeedsReseed(r) && r' == r.(calls := r.calls + 1)
  {
    RoundOk(env, r, n);
    hide SourcesOk, OsOnce, Continues, SinceSeed, NextKey, NextCtr, Xor;
  }

  /** A fill ends as the fill after its first round does. */
  lemma FillGoesOn(env: Env, r: Rng, n: nat)
    requires n > 0
    ensures var (r', d), (r2, ok) := DrbgFill(env, r, n), Round(env, r, n);
      if ok then
        var (r3, rest) := DrbgFill(env, r2, n - Min(n, CHUNK));
        r' == r3 && (d.Some? <==> rest.Some?)
      else r' == r2 && d.None?
  {
    hide DrbgFill, Round, Keystream;
    DrbgFillRound(env, r, n);
  }

  /** A fill keeps within 64 KiB of each seed exactly when it fits. */
  lemma {:induction false} FillBudgetIff(env: Env, r: Rng, n: nat)
    requires DrbgOk(env, r) && env.aes
    ensures WithinBudget(|r.sources|, DrbgFill(env, r, n).0.sources) <==> FillFits(r, n)
    decreases n
  {
    hide DrbgFill, Round, DrbgOk, SinceSeed, Filled, Keystream, NextKey, NextCtr;
    if n == 0 {
      FilledNothing(env, r);
    } else {
      DrbgFillRound(env, r, n);
      RoundCounts(env, r, n);
      var (r2, ok) := Round(env, r, n);
      if ok {
        var rest := n - Min(n, CHUNK);
        FillBudgetIff(env, r2, rest);
        DrbgFillOk(env, r2, rest);
        FilledGrows(env, r2, DrbgFill(env, r2, rest).0, DrbgFill(env, r2, rest).1);
      }
    }
  }

  /** Without the AES backend every draw is OS entropy. */
  lemma OsFillBudget(env: Env, r: Rng, n: nat)
    ensures WithinBudget(|r.sources|, OsFill(env, r, n).0.sources)
  {
  }

  /** How many bytes fu_rand takes from the generator when asked for n: none while the
      buffer lasts, else a chunk, or all n past a chunk. */
  function RandTakes(r: Rng, n: nat): nat {
    if n > CHUNK then n else if r.rpos + n > CHUNK then CHUNK else 0
  }

  lemma RandBudgetIff(env: Env, r: Rng, n: nat)
    requires DrbgOk(env, r)
    ensures WithinBudget(|r.sources|, Rand(env, r, n).0.sources) <==> !env.aes || FillFits(r, RandTakes(r, n))
  {
    hide DrbgFill, DrbgOk, SinceSeed, FillFits, OsFill;
    var m := RandTakes(r, n);
    if m == 0 {
      FillFitsNothing(r);
    } else if env.aes {
      FillBudgetIff(env, r, m);
    } else {
      OsFillBudget(env, r, m);
    }
  }

  lemma FillFitsNothing(r: Rng)
    ensures FillFits(r, 0)
  {
  }

  /** The same for fast_uuid_random_bytes, which past half a chunk bypasses the buffer. */
  function RandomBytesTakes(r: Rng, n: int): nat {
    if n <= 0 || n > MAX_RANDOM_BYTES then 0
    else if CHUNK / 2 < n < CHUNK then n
    else RandTakes(r, n)
  }

  lemma RandomBytesBudgetIff(env: Env, r: Rng, n: int)
    requires DrbgOk(env, r)
    ensures WithinBudget(|r.sources|, RandomBytes(env, r, n).0.sources)
      <==> !env.aes || FillFits(r, RandomBytesTakes(r, n))
  {
    hide DrbgFill, DrbgOk, SinceSeed, FillFits, OsFill, Rand;
    if n <= 0 || n > MAX_RANDOM_BYTES {
      FillFitsNothing(r);
    } else if CHUNK / 2 < n < CHUNK {
      if env.aes {
        FillBudgetIff(env, r, n);
      } else {
        OsFillBudget(env, r, n);
      }
    } else {
      RandBudgetIff(env, r, n);
    }
  }

  // ---- whole chunks --------------------------------------------------------

  /** So far every seed has yielded whole chunks only, at most 64 KiB. */
  ghost predicate Aligned(r: Rng) {
    (r.seeded ==> r.since % CHUNK == 0) && WithinBudget(0, r.sources)
  }

  /** The count after a fill that began at a multiple of the chunk. */
  lemma {:induction false} FillSince(env: Env, r: Rng, n: nat)
    requires DrbgOk(env, r) && env.aes && (r.seeded ==> r.since % CHUNK == 0)
    ensures var (r', d) := DrbgFill(env, r, n);
      && (d.Some? && n > 0 ==> r'.seeded)
      && (r'.seeded && (d.Some? || n % CHUNK == 0) ==> r'.since % CHUNK == n % CHUNK)
    decreases n
  {
    hide DrbgFill, Round, DrbgOk, SinceSeed, Keystream, Filled;
    if n == 0 {
      FilledNothing(env, r);
    } else {
      FillGoesOn(env, r, n);
      RoundSince(env, r, n);
      var (r2, ok) := Round(env, r, n);
      if ok && n > CHUNK {
        FillSince(env, r2, n - CHUNK);
      } else if ok {
        FilledNothing(env, r2);
      }
    }
  }

  lemma RoundSince(env: Env, r: Rng, n: nat)
    requires DrbgOk(env, r) && env.aes && n > 0 && (r.seeded ==> r.since % CHUNK == 0)
    ensures var (r', ok) := Round(env, r, n);
      && DrbgOk(env, r')
      && if ok then r'.seeded && r'.since % CHUNK == Min(n, CHUNK) % CHUNK
         else r'.seeded == r.seeded && r'.since == r.since
  {
    hide Round, DrbgOk, SinceSeed;
    RoundCounts(env, r, n);
  }

  lemma FillAligned(env: Env, r: Rng, n: nat)
    requires DrbgOk(env, r) && Aligned(r) && (env.aes ==> n % CHUNK == 0)
    ensures Aligned(RandFill(env, r, n).0)
  {
    hide DrbgFill, DrbgOk, SinceSeed, Filled, FillFits;
    RandFillOk(env, r, n);
    FilledGrows(env, r, RandFill(env, r, n).0, RandFill(env, r, n).1);
    if env.aes {
      FillSince(env, r, n);
      FillBudgetIff(env, r, n);
      AlignedFits(r, n);
      WithinAfter(r.sources, DrbgFill(env, r, n).0.sources);
    } else {
      OsFillBudget(env, r, n);
      WithinAfter(r.sources, OsFill(env, r, n).0.sources);
      assert OsFill(env, r, n).0.seeded == r.seeded && OsFill(env, r, n).0.since == r.since;
    }
  }

  lemma AlignedFits(r: Rng, n: nat)
    requires Aligned(r)
    ensures FillFits(r, n)
  {
  }

  lemma WithinAfter(s: seq<Source>, t: seq<Source>)
    requires s <= t && WithinBudget(0, s) && WithinBudget(|s|, t)
    ensures WithinBudget(0, t)
  {
    forall k | 0 < k <= |t|
      ensures SinceSeed(t[..k]) <= RESEED_BYTES
    {
      if k <= |s| {
        assert t[..k] == s[..k];
      }
    }
  }

  lemma RandAligned(env: Env, r: Rng, n: nat)
    requires DrbgOk(env, r) && Aligned(r) && (env.aes && n > CHUNK ==> n % CHUNK == 0)
    ensures Aligned(Rand(env, r, n).0)
  {
    hide RandFill, DrbgOk, SinceSeed;
    FillAligned(env, r, RandTakes(r, n));
  }

  /** fast_uuid_random_bytes(n) takes nothing from the generator but whole chunks. */
  predicate WholeChunks(n: int) {
    !(CHUNK / 2 < n < CHUNK) && (CHUNK < n <= MAX_RANDOM_BYTES ==> n % CHUNK == 0)
  }

  lemma RandomBytesAligned(env: Env, r: Rng, n: int)
    requires DrbgOk(env, r) && Aligned(r) && (env.aes ==> WholeChunks(n))
    ensures Aligned(RandomBytes(env, r, n).0)
  {
    hide RandFill, DrbgOk, SinceSeed;
    if 0 < n <= MAX_RANDOM_BYTES {
      if CHUNK / 2 < n < CHUNK {
        FillAligned(env, r, n);
      } else {
        RandAligned(env, r, n);
      }
    }
  }

  /** With an OS that always answers, every fill succeeds. */
  lemma {:induction false} FillSucceeds(env: Env, r: Rng, n: nat)
    requires forall k :: env.os(k).OsBytes?
    ensures DrbgFill(env, r, n).1.Some?
    decreases n
  {
    hide DrbgFill, Keystream, NextKey, NextCtr, Xor;
    if n == 0 {
      FillNothing(env, r);
    } else {
      DrbgFillRound(env, r, n);
      FillSucceeds(env, Round(env, r, n).0, n - Min(n, CHUNK));
    }
  }

  /** A first draw that is not whole chunks puts the next 64 KiB out of step. */
  lemma OddDrawOutlives64K(env: Env, n: int)
    requires env.aes && (forall k :: env.os(k).OsBytes?) && !WholeChunks(n)
    ensures !WithinBudget(0, RandomBytes(env, RandomBytes(env, Ginit(), n).0, RESEED_BYTES).0.sources)
  {
    hide DrbgFill, DrbgOk, SinceSeed, Filled, Rand, OsFill;
    GinitOk(env);
    var r1 := RandomBytes(env, Ginit(), n).0;
    OddDraw(env, n);
    RandomBytesBudgetIff(env, r1, RESEED_BYTES);
    RandomBytesOk(env, r1, RESEED_BYTES);
    var r2 := RandomBytes(env, r1, RESEED_BYTES).0;
    if NeedsReseed(r1) {
      assert r2.sources[..|r1.sources|] == r1.sources;
    }
  }

  lemma OddDraw(env: Env, n: int)
    requires env.aes && (forall k :: env.os(k).OsBytes?) && !WholeChunks(n)
    ensures var r := RandomBytes(env, Ginit(), n).0;
      && Inv(env, r) && r.seeded && r.since % CHUNK != 0
      && |r.sources| > 0 && r.since == SinceSeed(r.sources)
  {
    hide DrbgFill, SinceSeed, BufferOk, NoReuse, SourcesOk, OsOnce, Continues;
    GinitOk(env);
    RandomBytesOk(env, Ginit(), n);
    FillSucceeds(env, Ginit(), n);
    FillSince(env, Ginit(), n);
  }

  // ---- a run past 64 KiB ---------------------------------------------------

  /** SECURITY.md promises OS entropy every 64 KiB. Direct draws need not divide
      64 KiB: fifteen of 4369 bytes leave the count at 65535, the next buffer
      refill still goes through, and 73727 bytes have come from one seed. */
  lemma SeedOutlives64K(env: Env)
    requires env.aes && env.os(0).OsBytes?
    ensures SinceSeed(Rand(env, DirectDraws(env, 15), 16).0.sources) == 73727
  {
    hide Keystream, NextKey, NextCtr, Xor, OsFill, DirectDraws;
    var r := DirectDraws(env, 15);
    DirectDrawsCount(env, 15);
    DirectDrawsOk(env, 15);
    var g := Generate(env, r, CHUNK, None);
    assert DrbgFill(env, g, 0) == (g, Some(Draw([], [])));
    var r' := Rand(env, r, 16).0;
    assert r'.sources == r.sources + [KeyEpoch(r.key, r.ctr, CHUNK, None)];
    assert r'.sources[..|r.sources|] == r.sources;
  }

  /** The state after k calls of fast_uuid_random_bytes(4369) from module start. */
  function DirectDraws(env: Env, k: nat): Rng {
    if k == 0 then Ginit() else RandomBytes(env, DirectDraws(env, k - 1), 4369).0
  }

  lemma {:induction false} DirectDrawsCount(env: Env, k: nat)
    requires env.aes && env.os(0).OsBytes? && k <= 15
    ensures var r := DirectDraws(env, k);
      && r.since == 4369 * k && r.rpos == CHUNK
      && (k == 0 ==> r.calls == 0) && (k > 0 ==> r.seeded)
  {
    hide RandomBytes;
    if k > 0 {
      DirectDrawsCount(env, k - 1);
      DirectDrawRound(env, DirectDraws(env, k - 1), 4369);
    }
  }

  lemma {:induction false} DirectDrawsOk(env: Env, k: nat)
    ensures Inv(env, DirectDraws(env, k))
  {
    hide Inv, RandomBytes, BytesOf;
    if k == 0 {
      GinitOk(env);
    } else {
      DirectDrawsOk(env, k - 1);
      RandomBytesOk(env, DirectDraws(env, k - 1), 4369);
    }
  }

  lemma DirectDrawRound(env: Env, p: Rng, n: nat)
    requires env.aes && CHUNK / 2 < n < CHUNK
    requires !p.seeded ==> p.calls == 0 && env.os(0).OsBytes?
    requires p.since < RESEED_BYTES
    ensures var r := RandomBytes(env, p, n).0;
      r.seeded && r.rpos == p.rpos && r.since == (if p.seeded then p.since else 0) + n
  {
    DrbgFillRound(env, p, n);
    var r2 := Round(env, p, n).0;
    assert DrbgFill(env, r2, 0) == (r2, Some(Draw([], [])));
  }
}
