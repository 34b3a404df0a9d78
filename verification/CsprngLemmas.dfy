/** What every CSPRNG operation keeps: served bytes are fresh keystream, no byte
    is served twice, keys erase themselves, and reseeding is bounded. */
module CsprngLemmas {
  import opened Bytes
  import opened Csprng

  // ---- meaning of slices ---------------------------------------------------

  function SourceByte(env: Env, s: Source, i: nat): byte {
    match s
    case KeyEpoch(key, ctr, _, _) => KsByte(env.cipher, key, ctr, i)
    case OsRead(call, _) => OsByte(env, call, i)
  }

  function SliceBytes(env: Env, sources: seq<Source>, s: Slice): seq<byte> {
    if s.src < |sources| && s.from <= s.to then
      seq<byte>(s.to - s.from, i requires 0 <= i => SourceByte(env, sources[s.src], s.from + i))
    else []
  }

  /** The bytes a list of slices stands for. */
  function BytesOf(env: Env, sources: seq<Source>, slices: seq<Slice>): seq<byte> {
    if |slices| == 0 then [] else SliceBytes(env, sources, slices[0]) + BytesOf(env, sources, slices[1..])
  }

  lemma SliceContents(env: Env, sources: seq<Source>, s: Slice)
    requires s.src < |sources| && s.from <= s.to
    ensures sources[s.src].KeyEpoch? ==>
      var e := sources[s.src];
      SliceBytes(env, sources, s) == Keystream(env.cipher, e.key, e.ctr, s.from, s.to)
    ensures sources[s.src].OsRead? && s.from == 0 ==>
      SliceBytes(env, sources, s) == OsData(env, sources[s.src].call, s.to)
  {
    var b := SliceBytes(env, sources, s);
    match sources[s.src]
    case KeyEpoch(key, ctr, _, _) =>
      var k := Keystream(env.cipher, key, ctr, s.from, s.to);
      forall i | 0 <= i < |b| ensures b[i] == k[i] {
        assert b[i] == SourceByte(env, sources[s.src], s.from + i);
        assert k[i] == KsByte(env.cipher, key, ctr, s.from + i);
      }
    case OsRead(call, _) =>
      if s.from == 0 {
        var k := OsData(env, call, s.to);
        forall i | 0 <= i < |b| ensures b[i] == k[i] {
          assert b[i] == SourceByte(env, sources[s.src], s.from + i);
          assert k[i] == OsByte(env, call, i);
        }
      }
  }

  // ---- invariant -----------------------------------------------------------

  /** Bytes drawn from the generator since OS entropy was last mixed in. */
  function SinceSeed(sources: seq<Source>): nat {
    if |sources| == 0 then 0
    else
      var n := |sources| - 1;
      match sources[n]
      case KeyEpoch(_, _, len, seed) => (if seed.Some? then 0 else SinceSeed(sources[..n])) + len
      case OsRead(_, _) => 0
  }

  /** Key and counter continue those of the source before: its successor key, the
      counter past its successor key. */
  ghost predicate Continues(env: Env, s: Source, key: Key, ctr: Block) {
    s.KeyEpoch? && key == NextKey(env.cipher, s.key, s.ctr, s.len) && ctr == NextCtr(s.ctr, s.len)
  }

  /** Key and counter are a state the generator had, xored with one OS answer: the
      state all zero (module start, fork), or the one the source before left. */
  ghost predicate Seeded(env: Env, before: seq<Source>, key: Key, ctr: Block, call: nat) {
    exists k: Key, c: Block ::
      && StateAfter(env, before, k, c)
      && key == Xor(k, OsData(env, call, 48)) && ctr == Xor(c, OsData(env, call, 48)[32..])
  }

  ghost predicate StateAfter(env: Env, before: seq<Source>, k: Key, c: Block) {
    || (k == Ginit().key && c == Ginit().ctr)
    || (|before| > 0 && Continues(env, before[|before| - 1], k, c))
  }

  /** A key yields at most one chunk, and is either freshly seeded or the successor of
      the key before with the reseed threshold not yet reached. */
  ghost predicate SourceLink(env: Env, sources: seq<Source>, i: nat)
    requires i < |sources|
  {
    match sources[i]
    case KeyEpoch(key, ctr, len, None) =>
      && 0 < len <= CHUNK
      && i > 0 && Continues(env, sources[i - 1], key, ctr) && SinceSeed(sources[..i]) < RESEED_BYTES
    case KeyEpoch(key, ctr, len, Some(call)) =>
      0 < len <= CHUNK && Seeded(env, sources[..i], key, ctr, call)
    case OsRead(_, _) => true
  }

  /** The OS call a source used, if it used one. */
  function OsCall(s: Source): Option<nat> {
    match s
    case KeyEpoch(_, _, _, seed) => seed
    case OsRead(call, _) => Some(call)
  }

  /** OS answers are used in order, each at most once, and only answers already given. */
  ghost predicate OsOnce(sources: seq<Source>, calls: nat) {
    && (forall i :: 0 <= i < |sources| && OsCall(sources[i]).Some? ==> OsCall(sources[i]).value < calls)
    && (forall i, j :: 0 <= i < j < |sources| && OsCall(sources[i]).Some? && OsCall(sources[j]).Some? ==>
          OsCall(sources[i]).value < OsCall(sources[j]).value)
  }

  ghost predicate SourcesOk(env: Env, sources: seq<Source>) {
    forall i :: 0 <= i < |sources| ==> SourceLink(env, sources, i)
  }

  ghost predicate DrbgOk(env: Env, r: Rng) {
    && SourcesOk(env, r.sources)
    && OsOnce(r.sources, r.calls)
    && (!r.seeded ==> r.key == Ginit().key && r.ctr == Ginit().ctr)
    && (r.seeded ==>
          && env.aes && |r.sources| > 0
          && Continues(env, r.sources[|r.sources| - 1], r.key, r.ctr)
          && r.since == SinceSeed(r.sources))
  }

  /** The unserved part of the buffer is the rest of one source. */
  ghost predicate BufferOk(env: Env, r: Rng) {
    r.rpos < CHUNK ==>
      && r.inBuffer < |r.sources|
      && r.sources[r.inBuffer].len == CHUNK
      && r.rbuf == SliceBytes(env, r.sources, Slice(r.inBuffer, 0, CHUNK))
  }

  /** A served slice lies inside its source, and behind the cursor if that source
      is in the buffer. */
  ghost predicate Served(r: Rng, s: Slice) {
    && s.src < |r.sources| && s.from < s.to <= r.sources[s.src].len
    && (r.rpos < CHUNK && s.src == r.inBuffer ==> s.to <= r.rpos)
  }

  predicate Disjoint(a: Slice, b: Slice) {
    a.src != b.src || a.to <= b.from || b.to <= a.from
  }

  ghost predicate NoReuse(given: seq<Slice>) {
    forall i, j :: 0 <= i < j < |given| ==> Disjoint(given[i], given[j])
  }

  ghost predicate Inv(env: Env, r: Rng) {
    && DrbgOk(env, r)
    && BufferOk(env, r)
    && (forall i :: 0 <= i < |r.given| ==> Served(r, r.given[i]))
    && NoReuse(r.given)
  }

  // ---- consequences --------------------------------------------------------

  /** Between two OS reseeds the generator yields at most 65535 + 8192 bytes. */
  lemma SinceSeedBound(env: Env, sources: seq<Source>, k: nat)
    requires SourcesOk(env, sources) && k <= |sources|
    ensures SinceSeed(sources[..k]) <= 73727
  {
    if k > 0 {
      assert sources[..k][..k - 1] == sources[..k - 1];
      assert SourceLink(env, sources, k - 1);
    }
  }

  /** The bytes of slice s lie in their source, and if that is a keystream, no cipher
      input behind them is one of the two behind the successor key. */
  ghost predicate ApartFromKey(sources: seq<Source>, s: Slice) {
    && s.src < |sources| && s.from < s.to <= sources[s.src].len
    && (sources[s.src].KeyEpoch? ==>
          var e := sources[s.src];
          && e.len <= CHUNK
          && forall p :: s.from <= p < s.to ==>
               && CtrAdd(e.ctr, p / 16) != CtrAdd(e.ctr, Blocks(e.len))
               && CtrAdd(e.ctr, p / 16) != CtrAdd(e.ctr, Blocks(e.len) + 1))
  }

  /** No served byte comes from a cipher input that the successor key comes from. */
  lemma KeyBytesAreNeverServed(env: Env, r: Rng, g: nat)
    requires Inv(env, r) && g < |r.given|
    ensures ApartFromKey(r.sources, r.given[g])
  {
    hide CtrAdd;
    var s := r.given[g];
    assert Served(r, s);
    assert SourceLink(env, r.sources, s.src);
    var e := r.sources[s.src];
    if e.KeyEpoch? {
      forall p | s.from <= p < s.to
        ensures CtrAdd(e.ctr, p / 16) != CtrAdd(e.ctr, Blocks(e.len))
        ensures CtrAdd(e.ctr, p / 16) != CtrAdd(e.ctr, Blocks(e.len) + 1)
      {
        CountersDistinct(e.ctr, p / 16, Blocks(e.len));
        CountersDistinct(e.ctr, p / 16, Blocks(e.len) + 1);
      }
    }
  }

  /** The two cipher inputs of ApartFromKey are those the successor key comes from. */
  lemma SuccessorKeyBlocks(cipher: Cipher, key: Key, ctr: Block, len: nat)
    ensures NextKey(cipher, key, ctr, len)
      == cipher(key, CtrAdd(ctr, Blocks(len))) + cipher(key, CtrAdd(ctr, Blocks(len) + 1))
  {
    hide CtrAdd;
    var n := Blocks(len);
    var k, two := NextKey(cipher, key, ctr, len), KsBlock(cipher, key, ctr, n) + KsBlock(cipher, key, ctr, n + 1);
    forall i | 0 <= i < 32
      ensures k[i] == two[i]
    {
      assert k[i] == KsByte(cipher, key, ctr, 16 * n + i);
    }
  }

  // ---- preservation --------------------------------------------------------

  lemma PrefixKeepsLinks(env: Env, s: seq<Source>, t: seq<Source>)
    requires SourcesOk(env, s) && |t| == |s| + 1 && t[..|s|] == s && SourceLink(env, t, |s|)
    ensures SourcesOk(env, t)
  {
    forall i | 0 <= i < |t|
      ensures SourceLink(env, t, i)
    {
      if i < |s| {
        assert SourceLink(env, s, i);
        assert t[..i] == s[..i];
      }
    }
  }

  /** Slices of whole new sources, one each, in order. */
  ghost predicate NewSlices(before: nat, sources: seq<Source>, slices: seq<Slice>) {
    forall k :: 0 <= k < |slices| ==>
      && slices[k].src == before + k < |sources|
      && slices[k].from == 0 < slices[k].to <= sources[before + k].len
  }

  ghost predicate Filled(env: Env, r: Rng, r': Rng, d: Option<Draw>) {
    && DrbgOk(env, r')
    && r'.rbuf == r.rbuf && r'.rpos == r.rpos && r'.inBuffer == r.inBuffer && r'.given == r.given
    && r.sources <= r'.sources
    && (d.Some? ==>
          && d.value.bytes == BytesOf(env, r'.sources, d.value.slices)
          && NewSlices(|r.sources|, r'.sources, d.value.slices))
  }

  lemma GenerateOk(env: Env, r: Rng, r1: Rng, len: nat)
    requires DrbgOk(env, r) && env.aes && 0 < len <= CHUNK
    requires if NeedsReseed(r) then Reseed(env, r) == (r1, true) else r1 == r
    ensures DrbgOk(env, Generate(env, r1, len, SeedCall(r)))
  {
    hide Xor, NextKey, NextCtr;
    var r2 := Generate(env, r1, len, SeedCall(r));
    var n := |r.sources|;
    assert r2.sources[..n] == r.sources;
    if NeedsReseed(r) {
      assert StateAfter(env, r.sources, r.key, r.ctr);
      assert Seeded(env, r.sources, r1.key, r1.ctr, r.calls);
    }
    assert SourceLink(env, r2.sources, n);
    PrefixKeepsLinks(env, r.sources, r2.sources);
  }

  /** The state one round of the fill loop leaves, and whether it got that far. */
  function Round(env: Env, r: Rng, n: nat): (Rng, bool) {
    var (r1, ok) := if NeedsReseed(r) then Reseed(env, r) else (r, true);
    if ok then (Generate(env, r1, Min(n, CHUNK), SeedCall(r)), true) else (r1, false)
  }

  /** A later draw with bytes and slices in front. */
  function Prepend(out: seq<byte>, slices: seq<Slice>, d: Option<Draw>): Option<Draw> {
    if d.None? then None else Some(Draw(out + d.value.bytes, slices + d.value.slices))
  }

  /** The fill loop is a round, then the rest. */
  lemma DrbgFillRound(env: Env, r: Rng, n: nat)
    requires n > 0
    ensures var (r1, ok) := if NeedsReseed(r) then Reseed(env, r) else (r, true);
      var take := Min(n, CHUNK);
      && r1.sources == r.sources
      && Round(env, r, n) == (if ok then Generate(env, r1, take, SeedCall(r)) else r1, ok)
      && (!ok ==> DrbgFill(env, r, n) == (r1, None))
      && (ok ==>
            var r2 := Round(env, r, n).0;
            var rest := DrbgFill(env, r2, n - take);
            && r2.sources == r.sources + [KeyEpoch(r1.key, r1.ctr, take, SeedCall(r))]
            && r2.rbuf == r.rbuf && r2.rpos == r.rpos && r2.inBuffer == r.inBuffer && r2.given == r.given
            && DrbgFill(env, r, n) == (rest.0, Prepend(Keystream(env.cipher, r1.key, r1.ctr, 0, take),
                                                       [Slice(|r.sources|, 0, take)], rest.1)))
  {
  }

  lemma RoundOk(env: Env, r: Rng, n: nat)
    requires DrbgOk(env, r) && env.aes && n > 0
    ensures DrbgOk(env, Round(env, r, n).0)
  {
    var (r1, ok) := if NeedsReseed(r) then Reseed(env, r) else (r, true);
    if ok {
      GenerateOk(env, r, r1, Min(n, CHUNK));
    }
  }

  lemma {:induction false} DrbgFillOk(env: Env, r: Rng, n: nat)
    requires DrbgOk(env, r) && env.aes
    ensures Filled(env, r, DrbgFill(env, r, n).0, DrbgFill(env, r, n).1)
    decreases n
  {
    hide Filled, DrbgOk, Round, Keystream, DrbgFill;
    if n == 0 {
      FilledNothing(env, r);
    } else {
      var (r2, ok) := Round(env, r, n);
      RoundOk(env, r, n);
      DrbgFillRound(env, r, n);
      if ok {
        var take := Min(n, CHUNK);
        DrbgFillOk(env, r2, n - take);
        FilledCons(env, r, r2, take, DrbgFill(env, r2, n - take).0, DrbgFill(env, r2, n - take).1);
      } else {
        FilledFailed(env, r, n);
      }
    }
  }

  /** The slices and the sources from number `before` on are the chunks of n bytes: each
      source drawn whole and in order, all of 8192 bytes but the last. */
  ghost predicate Chunks(before: nat, sources: seq<Source>, slices: seq<Slice>, n: nat) {
    && |slices| == (n + CHUNK - 1) / CHUNK && |sources| == before + |slices|
    && forall k :: 0 <= k < |slices| ==>
         && slices[k] == Slice(before + k, 0, Min(n - k * CHUNK, CHUNK))
         && sources[before + k].KeyEpoch?
         && sources[before + k].len == Min(n - k * CHUNK, CHUNK)
  }

  lemma ChunksCons(before: nat, sources: seq<Source>, slices: seq<Slice>, n: nat, take: nat)
    requires n > 0 && take == Min(n, CHUNK) && before < |sources|
    requires sources[before].KeyEpoch? && sources[before].len == take
    requires Chunks(before + 1, sources, slices, n - take)
    ensures Chunks(before, sources, [Slice(before, 0, take)] + slices, n)
  {
    var all := [Slice(before, 0, take)] + slices;
    forall k | 0 <= k < |all|
      ensures all[k] == Slice(before + k, 0, Min(n - k * CHUNK, CHUNK))
      ensures sources[before + k].KeyEpoch? && sources[before + k].len == Min(n - k * CHUNK, CHUNK)
    {
      if k > 0 {
        assert all[k] == slices[k - 1];
      }
    }
  }

  /** A fill that succeeds logs ceil(n / 8192) sources. */
  lemma {:induction false} FillLogsChunks(env: Env, r: Rng, n: nat)
    requires DrbgOk(env, r) && env.aes
    ensures var (r', d) := DrbgFill(env, r, n);
      && r.sources <= r'.sources
      && (d.Some? ==> Chunks(|r.sources|, r'.sources, d.value.slices, n))
    decreases n
  {
    hide Round, Keystream, Chunks, Filled, DrbgOk, DrbgFill;
    if n == 0 {
      FilledNothing(env, r);
      NoChunks(|r.sources|, r.sources);
    } else {
      DrbgFillRound(env, r, n);
      RoundOk(env, r, n);
      var r2, take := Round(env, r, n).0, Min(n, CHUNK);
      if Round(env, r, n).1 {
        FillLogsChunks(env, r2, n - take);
        var (r3, rest) := DrbgFill(env, r2, n - take);
        assert r3.sources[|r.sources|] == r2.sources[|r.sources|];
        if rest.Some? {
          ChunksCons(|r.sources|, r3.sources, rest.value.slices, n, take);
        }
      }
    }
  }

  lemma NoChunks(before: nat, sources: seq<Source>)
    requires before == |sources|
    ensures Chunks(before, sources, [], 0)
  {
  }

  lemma FilledNothing(env: Env, r: Rng)
    requires DrbgOk(env, r)
    ensures DrbgFill(env, r, 0) == (r, Some(Draw([], [])))
    ensures Filled(env, r, r, Some(Draw([], [])))
  {
  }

  lemma FilledFailed(env: Env, r: Rng, n: nat)
    requires n > 0 && DrbgOk(env, Round(env, r, n).0) && !Round(env, r, n).1
    ensures Filled(env, r, Round(env, r, n).0, None)
  {
  }

  lemma FilledCons(env: Env, r: Rng, r2: Rng, take: nat, r3: Rng, rest: Option<Draw>)
    requires Filled(env, r2, r3, rest) && take > 0
    requires r2.rbuf == r.rbuf && r2.rpos == r.rpos && r2.inBuffer == r.inBuffer && r2.given == r.given
    requires |r2.sources| == |r.sources| + 1 && r2.sources[..|r.sources|] == r.sources
    requires r2.sources[|r.sources|].KeyEpoch? && r2.sources[|r.sources|].len == take
    ensures var e := r2.sources[|r.sources|];
      Filled(env, r, r3, Prepend(Keystream(env.cipher, e.key, e.ctr, 0, take), [Slice(|r.sources|, 0, take)], rest))
  {
    assert r3.sources[..|r2.sources|] == r2.sources;
    assert r3.sources[..|r.sources|] == r.sources;
    if rest.Some? {
      var e := r2.sources[|r.sources|];
      var slice := Slice(|r.sources|, 0, take);
      var slices := [slice] + rest.value.slices;
      assert slices[1..] == rest.value.slices;
      assert r3.sources[|r.sources|] == e;
      SliceContents(env, r3.sources, slice);
      forall k | 0 <= k < |slices|
        ensures slices[k].src == |r.sources| + k < |r3.sources|
        ensures slices[k].from == 0 < slices[k].to <= r3.sources[|r.sources| + k].len
      {
        if k > 0 {
          assert slices[k] == rest.value.slices[k - 1];
        }
      }
    }
  }

  lemma RandFillOk(env: Env, r: Rng, n: nat)
    requires DrbgOk(env, r)
    ensures Filled(env, r, RandFill(env, r, n).0, RandFill(env, r, n).1)
  {
    if env.aes {
      DrbgFillOk(env, r, n);
    } else {
      var (r1, d) := OsFill(env, r, n);
      if d.Some? {
        PrefixKeepsLinks(env, r.sources, r1.sources);
        if n > 0 {
          assert d.value.slices[1..] == [];
          SliceContents(env, r1.sources, d.value.slices[0]);
        }
      }
    }
  }

  /** What a draw promises its caller: the invariant still holds, and the bytes
      are exactly the newly logged slices. */
  ghost predicate Drawn(env: Env, r: Rng, r': Rng, d: Option<Draw>) {
    && Inv(env, r')
    && r.sources <= r'.sources
    && r'.given == r.given + (if d.Some? then d.value.slices else [])
    && (d.Some? ==> d.value.bytes == BytesOf(env, r'.sources, d.value.slices))
  }

  lemma DirectOk(env: Env, r: Rng, n: nat)
    requires Inv(env, r)
    ensures Drawn(env, r, Deliver(RandFill(env, r, n)).0, Deliver(RandFill(env, r, n)).1)
  {
    RandFillOk(env, r, n);
    DeliverOk(env, r, RandFill(env, r, n).0, RandFill(env, r, n).1);
  }

  lemma BufferStays(env: Env, r: Rng, r1: Rng)
    requires r.rpos < CHUNK && BufferOk(env, r) && r.sources <= r1.sources && r1.inBuffer == r.inBuffer
    ensures r1.inBuffer < |r1.sources| && r1.sources[r1.inBuffer].len == CHUNK
    ensures SliceBytes(env, r1.sources, Slice(r1.inBuffer, 0, CHUNK))
      == SliceBytes(env, r.sources, Slice(r.inBuffer, 0, CHUNK))
  {
    assert r1.sources[r.inBuffer] == r.sources[r.inBuffer];
  }

  lemma DeliverOk(env: Env, r: Rng, r1: Rng, d: Option<Draw>)
    requires Inv(env, r) && Filled(env, r, r1, d)
    ensures Drawn(env, r, Deliver((r1, d)).0, d)
  {
    hide SourcesOk, OsOnce, Continues, SinceSeed, BytesOf, SliceBytes;
    var r2 := Deliver((r1, d)).0;
    assert BufferOk(env, r2) by {
      if r.rpos < CHUNK { BufferStays(env, r, r1); }
    }
    forall i | 0 <= i < |r2.given|
      ensures Served(r2, r2.given[i])
    {
      if i < |r.given| {
        assert r2.given[i] == r.given[i];
        assert Served(r, r.given[i]);
      } else {
        assert r2.given[i] == d.value.slices[i - |r.given|];
      }
    }
    forall i, j | 0 <= i < j < |r2.given|
      ensures Disjoint(r2.given[i], r2.given[j])
    {
      if i < |r.given| {
        assert Served(r, r.given[i]);
      }
    }
  }

  lemma RefillOk(env: Env, r: Rng)
    requires Inv(env, r)
    ensures var (r', ok) := Refill(env, r);
      && Inv(env, r') && r.sources <= r'.sources && r'.given == r.given
      && (ok ==> r'.rpos == 0)
  {
    RandFillOk(env, r, CHUNK);
    var (r1, d) := RandFill(env, r, CHUNK);
    var (r2, ok) := Refill(env, r);
    if ok {
      FullDrawIsOneSource(env, r);
      assert d.value.slices[1..] == [];
    }
    forall i | 0 <= i < |r2.given|
      ensures Served(r2, r2.given[i])
    {
      assert Served(r, r.given[i]);
    }
  }

  lemma FullDrawIsOneSource(env: Env, r: Rng)
    requires RandFill(env, r, CHUNK).1.Some?
    ensures RandFill(env, r, CHUNK).1.value.slices == [Slice(|r.sources|, 0, CHUNK)]
    ensures var r' := RandFill(env, r, CHUNK).0;
      |r'.sources| == |r.sources| + 1 && r'.sources[|r.sources|].len == CHUNK
  {
    if env.aes {
      var (r1, ok) := if NeedsReseed(r) then Reseed(env, r) else (r, true);
      var r2 := Generate(env, r1, CHUNK, SeedCall(r));
      assert DrbgFill(env, r2, 0) == (r2, Some(Draw([], [])));
    }
  }

  lemma ServeOk(env: Env, r: Rng, n: nat)
    requires Inv(env, r) && r.rpos + n <= CHUNK
    ensures Drawn(env, r, Rand(env, r, n).0, Rand(env, r, n).1)
  {
    if n > 0 {
      var (r2, d) := Rand(env, r, n);
      var s := Slice(r.inBuffer, r.rpos, r.rpos + n);
      assert d.value.slices == [s] && d.value.slices[1..] == [];
      assert d.value.bytes == SliceBytes(env, r.sources, s);
      forall i | 0 <= i < |r2.given|
        ensures Served(r2, r2.given[i])
      {
        if i < |r.given| {
          assert Served(r, r.given[i]);
        }
      }
      forall i, j | 0 <= i < j < |r2.given|
        ensures Disjoint(r2.given[i], r2.given[j])
      {
        assert Served(r, r.given[i]);
      }
    } else {
      var (r2, d) := Rand(env, r, n);
      assert r2.given == r.given;
      assert r2 == r;
    }
  }

  /** fu_rand keeps the invariant and serves exactly the bytes it logs. */
  lemma RandOk(env: Env, r: Rng, n: nat)
    requires Inv(env, r)
    ensures Drawn(env, r, Rand(env, r, n).0, Rand(env, r, n).1)
  {
    hide Inv, RandFill, Refill, BytesOf;
    if n > CHUNK {
      DirectOk(env, r, n);
    } else if r.rpos + n > CHUNK {
      RefillOk(env, r);
      var (r1, ok) := Refill(env, r);
      if ok {
        ServeOk(env, r1, n);
      }
    } else {
      ServeOk(env, r, n);
    }
  }

  lemma RandomBytesOk(env: Env, r: Rng, n: int)
    requires Inv(env, r)
    ensures Drawn(env, r, RandomBytes(env, r, n).0, RandomBytes(env, r, n).1)
  {
    if 0 < n <= MAX_RANDOM_BYTES {
      if CHUNK / 2 < n < CHUNK {
        DirectOk(env, r, n);
      } else {
        RandOk(env, r, n);
      }
    }
  }

  lemma GinitOk(env: Env)
    ensures Inv(env, Ginit())
  {
  }

  /** The atfork handler restores the module-start state, keeps the invariant, and
      makes the child's next key and counter an OS answer given after the fork. */
  lemma ForkOk(env: Env, r: Rng, n: nat)
    requires Inv(env, r) && n > 0
    ensures Inv(env, ForkReset(r))
    ensures ForkReset(r).(calls := 0, sources := [], inBuffer := 0, given := []) == Ginit()
    ensures env.aes && Rand(env, ForkReset(r), n).1.Some? ==>
      KeyedAfterFork(env, r, Rand(env, ForkReset(r), n).0.sources)
    ensures env.aes && RandomBytes(env, ForkReset(r), n).1.Some? ==>
      KeyedAfterFork(env, r, RandomBytes(env, ForkReset(r), n).0.sources)
  {
    var f := ForkReset(r);
    forall i | 0 <= i < |f.given|
      ensures Served(f, f.given[i])
    {
      assert Served(r, r.given[i]);
    }
    DrbgOkFork(env, r);
    hide DrbgFill, Round, DrbgOk;
    if env.aes && Rand(env, f, n).1.Some? {
      var m := if n > CHUNK then n else CHUNK;
      DrbgFillRound(env, f, m);
      FirstFillReseeds(env, f, m);
    }
    if env.aes && RandomBytes(env, f, n).1.Some? && CHUNK / 2 < n < CHUNK {
      DrbgFillRound(env, f, n);
      FirstFillReseeds(env, f, n);
    }
  }

  /** The first source past those of r has as key and counter an OS answer r had not yet
      asked for. */
  ghost predicate KeyedAfterFork(env: Env, r: Rng, s: seq<Source>) {
    |s| > |r.sources| && s[|r.sources|].KeyEpoch? && s[|r.sources|].seed == Some(r.calls)
    && s[|r.sources|].key == OsData(env, r.calls, 48)[..32]
    && s[|r.sources|].ctr == OsData(env, r.calls, 48)[32..]
  }

  /** An unseeded generator draws its first key from the OS. */
  lemma FirstFillReseeds(env: Env, f: Rng, m: nat)
    requires env.aes && !f.seeded && m > 0 && DrbgOk(env, f) && Round(env, f, m).1
    ensures KeyedAfterFork(env, f, DrbgFill(env, f, m).0.sources)
  {
    RoundKey(env, f, m);
    hide DrbgFill, Filled, Round;
    DrbgFillRound(env, f, m);
    RoundOk(env, f, m);
    var r2 := Round(env, f, m).0;
    DrbgFillOk(env, r2, m - Min(m, CHUNK));
    FilledGrows(env, r2, DrbgFill(env, r2, m - Min(m, CHUNK)).0, DrbgFill(env, r2, m - Min(m, CHUNK)).1);
  }

  lemma RoundKey(env: Env, f: Rng, m: nat)
    requires !f.seeded && m > 0 && f.key == Ginit().key && f.ctr == Ginit().ctr && Round(env, f, m).1
    ensures Round(env, f, m).0.sources[|f.sources|].key == OsData(env, f.calls, 48)[..32]
    ensures Round(env, f, m).0.sources[|f.sources|].ctr == OsData(env, f.calls, 48)[32..]
  {
    hide NextKey, NextCtr;
    ReseedFromZero(env, f);
  }

  lemma FilledGrows(env: Env, r: Rng, r': Rng, d: Option<Draw>)
    requires Filled(env, r, r', d)
    ensures |r.sources| <= |r'.sources| && r'.sources[..|r.sources|] == r.sources
  {
  }

  lemma DrbgOkFork(env: Env, r: Rng)
    requires DrbgOk(env, r)
    ensures DrbgOk(env, ForkReset(r))
  {
  }

  // ---- when draws fail -----------------------------------------------------

  /** The OS answered calls from..to. */
  ghost predicate Answered(env: Env, from: nat, to: nat) {
    from <= to && forall k :: from <= k < to ==> env.os(k).OsBytes?
  }

  lemma {:induction false} DrbgFillFailsIff(env: Env, r: Rng, n: nat)
    ensures var (r', d) := DrbgFill(env, r, n);
      r.calls <= r'.calls && (d.Some? <==> Answered(env, r.calls, r'.calls))
    decreases n
  {
    hide DrbgFill, Keystream, NextKey, NextCtr, Xor;
    if n == 0 {
      FillNothing(env, r);
    } else {
      DrbgFillRound(env, r, n);
      if Round(env, r, n).1 {
        DrbgFillFailsIff(env, Round(env, r, n).0, n - Min(n, CHUNK));
      }
    }
  }

  lemma FillNothing(env: Env, r: Rng)
    ensures DrbgFill(env, r, 0) == (r, Some(Draw([], [])))
  {
  }

  /** A draw fails exactly when the OS fails a call it makes. */
  lemma RandFailsIff(env: Env, r: Rng, n: nat)
    ensures var (r', d) := Rand(env, r, n);
      r.calls <= r'.calls && (d.Some? <==> Answered(env, r.calls, r'.calls))
  {
    hide DrbgFill;
    DrbgFillFailsIff(env, r, n);
    DrbgFillFailsIff(env, r, CHUNK);
  }

  /** The same for fast_uuid_random_bytes within its range. */
  lemma RandomBytesFailsIff(env: Env, r: Rng, n: int)
    ensures var (r', d) := RandomBytes(env, r, n);
      r.calls <= r'.calls && (d.Some? <==> 1 <= n <= 0x100_0000 && Answered(env, r.calls, r'.calls))
  {
    hide DrbgFill, Rand;
    if 1 <= n <= 0x100_0000 {
      DrbgFillFailsIff(env, r, n);
      RandFailsIff(env, r, n);
    }
  }
}
