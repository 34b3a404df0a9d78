/** What a forked child shares with its parent: nothing it serves. */
module Forks {
  import opened Bytes
  import opened Csprng
  import opened CsprngLemmas

  /** A point in a run: what the history held when it was marked. */
  datatype Since = Since(sources: nat, given: nat, calls: nat)

  function Now(r: Rng): Since { Since(|r.sources|, |r.given|, r.calls) }

  /** The source is OS output obtained from call number `calls` on: read as it is, or
      taken as key and counter as it is. */
  ghost predicate FromOs(env: Env, s: Source, calls: nat) {
    match s
    case OsRead(call, _) => call >= calls
    case KeyEpoch(key, ctr, _, seed) =>
      && seed.Some? && seed.value >= calls
      && key == OsData(env, seed.value, 48)[..32] && ctr == OsData(env, seed.value, 48)[32..]
  }

  /** Everything served since p comes from sources opened since p, and the first of these
      is OS output obtained since p. */
  ghost predicate Apart(env: Env, r: Rng, p: Since) {
    && p.sources <= |r.sources| && p.given <= |r.given| && p.calls <= r.calls
    && (r.rpos < CHUNK ==> r.inBuffer >= p.sources)
    && (forall j :: p.given <= j < |r.given| ==> r.given[j].src >= p.sources)
    && (|r.sources| == p.sources ==> !r.seeded)
    && (|r.sources| > p.sources ==> FromOs(env, r.sources[p.sources], p.calls))
  }

  lemma ForkApart(env: Env, r: Rng)
    ensures Apart(env, ForkReset(r), Now(r))
  {
  }

  lemma GinitApart(env: Env)
    ensures Apart(env, Ginit(), Since(0, 0, 0))
  {
  }

  /** The first source an unseeded generator opens is OS output. */
  lemma FillSeeds(env: Env, r: Rng, n: nat)
    requires DrbgOk(env, r) && !r.seeded
    ensures var r' := RandFill(env, r, n).0;
      && |r'.sources| >= |r.sources|
      && (|r'.sources| == |r.sources| ==> !r'.seeded)
      && (|r'.sources| > |r.sources| ==> FromOs(env, r'.sources[|r.sources|], r.calls))
  {
    hide DrbgFill, DrbgOk, Round;
    if env.aes && n > 0 {
      DrbgFillRound(env, r, n);
      if Round(env, r, n).1 {
        FirstFillReseeds(env, r, n);
      }
    } else if env.aes {
      FillNothing(env, r);
    }
  }

  lemma FillApart(env: Env, r: Rng, n: nat, p: Since)
    requires DrbgOk(env, r) && Apart(env, r, p)
    ensures var (r', d) := RandFill(env, r, n);
      && Apart(env, r', p)
      && Filled(env, r, r', d)
      && (d.Some? ==> forall k :: 0 <= k < |d.value.slices| ==> d.value.slices[k].src >= |r.sources|)
  {
    hide RandFill, DrbgOk, FromOs, BytesOf;
    RandFillOk(env, r, n);
    FillCalls(env, r, n);
    if !r.seeded {
      FillSeeds(env, r, n);
    }
    if |r.sources| > p.sources {
      assert RandFill(env, r, n).0.sources[p.sources] == r.sources[p.sources];
    } else {
      FromOsLater(env, RandFill(env, r, n).0.sources, p, r.calls);
    }
  }

  lemma FromOsLater(env: Env, s: seq<Source>, p: Since, calls: nat)
    requires p.calls <= calls
    ensures |s| > p.sources && FromOs(env, s[p.sources], calls) ==> FromOs(env, s[p.sources], p.calls)
  {
  }

  lemma FillCalls(env: Env, r: Rng, n: nat)
    ensures r.calls <= RandFill(env, r, n).0.calls
  {
    hide DrbgFill;
    DrbgFillFailsIff(env, r, n);
  }

  lemma DirectApart(env: Env, r: Rng, n: nat, p: Since)
    requires DrbgOk(env, r) && Apart(env, r, p)
    ensures Apart(env, Deliver(RandFill(env, r, n)).0, p)
  {
    hide RandFill, DrbgOk, FromOs;
    FillApart(env, r, n, p);
  }

  lemma RandApart(env: Env, r: Rng, n: nat, p: Since)
    requires DrbgOk(env, r) && Apart(env, r, p)
    ensures Apart(env, Rand(env, r, n).0, p)
  {
    hide RandFill, DrbgOk, FromOs;
    if n > CHUNK {
      DirectApart(env, r, n, p);
    } else {
      FillApart(env, r, CHUNK, p);
    }
  }

  lemma RandomBytesApart(env: Env, r: Rng, n: int, p: Since)
    requires DrbgOk(env, r) && Apart(env, r, p)
    ensures Apart(env, RandomBytes(env, r, n).0, p)
  {
    hide RandFill, DrbgOk, Rand, Apart;
    if 0 < n <= MAX_RANDOM_BYTES {
      DirectApart(env, r, n, p);
      RandApart(env, r, n, p);
    }
  }
}
