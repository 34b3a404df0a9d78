/** The module globals of php_fast_uuid.h as one object, and the functions of
    fast_uuid.c that update them in place. Every method is proved to do exactly
    what the functions of Csprng and Generators say, so the run theorems hold of it. */
module Engine {
  import opened Bytes
  import opened Csprng
  import opened AesStream
  import opened Layout
  import Gen = Generators
  import Runs
  import L = CsprngLemmas
  import X = Xoshiro

  class ModuleGlobals {
    const env: Env
    const rbuf: array<byte>
    const drbgKey: array<byte>
    const drbgCtr: array<byte>
    const prng: array<bv64>
    var rpos: nat
    var sinceSeed: nat
    var seeded: bool
    var osCalls: nat
    var v7Key: Time60
    var v7RandB: RandB
    var v7Initialized: bool
    var prngSeeded: bool
    var gregLast: Time60
    var v2Last: Gen.Visible
    // history
    ghost var sources: seq<Source>
    ghost var inBuffer: nat
    ghost var given: seq<Slice>

    ghost predicate Valid()
      reads this
    {
      && rbuf.Length == CHUNK && rpos <= CHUNK
      && drbgKey.Length == 32 && drbgCtr.Length == 16 && prng.Length == 4
      && rbuf != drbgKey && rbuf != drbgCtr && drbgKey != drbgCtr
    }

    /** Not one of the arrays the state lives in. */
    ghost predicate Foreign(dst: array<byte>) {
      dst != rbuf && dst != drbgKey && dst != drbgCtr
    }

    ghost function Rng(): Rng
      requires Valid()
      reads this, rbuf, drbgKey, drbgCtr
    {
      RngState(rbuf[..], rpos, drbgKey[..], drbgCtr[..], sinceSeed, seeded, osCalls, sources, inBuffer, given)
    }

    ghost function View(): Gen.Globals
      requires Valid()
      reads this, rbuf, drbgKey, drbgCtr, prng
    {
      Gen.Globals(Rng(), v7Key, v7RandB, v7Initialized,
                  X.Xs(prng[0], prng[1], prng[2], prng[3]), prngSeeded, gregLast, v2Last)
    }

    /** GINIT: all zero, the buffer spent. */
    constructor (env: Env)
      ensures Valid() && this.env == env
      ensures fresh(rbuf) && fresh(drbgKey) && fresh(drbgCtr) && fresh(prng)
      ensures View() == Gen.InitGlobals()
      ensures rpos == CHUNK && sinceSeed == 0 && !seeded && osCalls == 0
      ensures v7Key == 0 && v7RandB == 0 && !v7Initialized && !prngSeeded && gregLast == 0 && v2Last == 0
      ensures forall i :: 0 <= i < CHUNK ==> rbuf[i] == 0
      ensures forall i :: 0 <= i < 32 ==> drbgKey[i] == 0
      ensures forall i :: 0 <= i < 16 ==> drbgCtr[i] == 0
      ensures prng[0] == prng[1] == prng[2] == prng[3] == 0
    {
      this.env := env;
      rbuf := new byte[CHUNK](_ => 0);
      drbgKey := new byte[32](_ => 0);
      drbgCtr := new byte[16](_ => 0);
      prng := new bv64[4](_ => 0);
      rpos, sinceSeed, seeded, osCalls := CHUNK, 0, false, 0;
      v7Key, v7RandB, v7Initialized, prngSeeded, gregLast, v2Last := 0, 0, false, false, 0, 0;
      sources, inBuffer, given := [], 0, [];
      new;
      assert rbuf[..] == Ginit().rbuf;
      assert drbgKey[..] == Ginit().key;
      assert drbgCtr[..] == Ginit().ctr;
    }

    // ---- randomness --------------------------------------------------------

    /** php_random_bytes_throw */
    method OsRandom(dst: array<byte>, n: nat) returns (ok: bool)
      requires n <= dst.Length
      modifies this`osCalls, dst
      ensures osCalls == old(osCalls) + 1
      ensures ok <==> env.os(old(osCalls)).OsBytes?
      ensures if ok then Written(old(dst[..]), dst[..], 0, OsData(env, old(osCalls), n)) else dst[..] == old(dst[..])
    {
      var call := osCalls;
      osCalls := osCalls + 1;
      ok := env.os(call).OsBytes?;
      if ok {
        Copy(dst, 0, OsData(env, call, n));
      }
    }

    method Mix(dst: array<byte>, seed: array<byte>, at: nat)
      requires dst != seed && at + dst.Length <= seed.Length
      modifies dst
      ensures dst[..] == Xor(old(dst[..]), seed[at..])
    {
      for i := 0 to dst.Length
        invariant forall j :: 0 <= j < i ==> dst[j] == XorByte(old(dst[j]), seed[at + j])
        invariant forall j :: i <= j < dst.Length ==> dst[j] == old(dst[j])
      {
        dst[i] := XorByte(dst[i], seed[at + i]);
      }
    }

    method ReseedFromOs() returns (ok: bool)
      requires Valid()
      modifies this`osCalls, this`seeded, this`sinceSeed, drbgKey, drbgCtr
      ensures Valid()
      ensures (Rng(), ok) == Reseed(env, old(Rng()))
    {
      var seed := new byte[48];
      ok := OsRandom(seed, 48);
      if ok {
        assert seed[..] == seed[0..] == OsData(env, old(osCalls), 48);
        Mix(drbgKey, seed, 0);
        Mix(drbgCtr, seed, 32);
        seeded, sinceSeed := true, 0;
      }
    }

    /** The head of the fill loop: OS entropy first, if unseeded or past the threshold.
        buf stands for the serving buffer, which the loop may be filling. */
    method ReseedWhenDue(ghost buf: seq<byte>) returns (ok: bool)
      requires Valid() && |buf| == CHUNK
      modifies this`osCalls, this`seeded, this`sinceSeed, drbgKey, drbgCtr
      ensures Valid()
      ensures var r := old(Rng()).(rbuf := buf);
        (Rng().(rbuf := buf), ok) == if NeedsReseed(r) then Reseed(env, r) else (r, true)
    {
      ok := true;
      if !seeded || sinceSeed >= RESEED_BYTES {
        ReseedIgnoresBuffer(env, Rng(), buf);
        ok := ReseedFromOs();
      }
    }

    /** The body of the fill loop: one chunk under one key. */
    method GenerateChunk(dst: array<byte>, at: nat, take: nat, ghost seed: Option<nat>, ghost buf: seq<byte>)
      requires Valid() && at + take <= dst.Length && dst != drbgKey && dst != drbgCtr && |buf| == CHUNK
      modifies this`sinceSeed, this`sources, drbgKey, drbgCtr, dst
      ensures Valid()
      ensures Rng().(rbuf := buf) == Generate(env, old(Rng()).(rbuf := buf), take, seed)
      ensures Written(old(dst[..]), dst[..], at, Keystream(env.cipher, old(Rng()).key, old(Rng()).ctr, 0, take))
    {
      hide Keystream, NextKey, NextCtr, Written;
      sources := sources + [KeyEpoch(drbgKey[..], drbgCtr[..], take, seed)];
      AesCtr(env.cipher, drbgKey, drbgCtr, dst, at, take);
      sinceSeed := sinceSeed + take;
    }

    /** One pass of the fill loop, p of n bytes in; buf stands for the serving buffer. */
    method FillRound(dst: array<byte>, p: nat, n: nat, ghost buf: seq<byte>)
      returns (ok: bool, take: nat, ghost chunk: seq<byte>, ghost slice: Slice)
      requires Valid() && p < n <= dst.Length && dst != drbgKey && dst != drbgCtr && |buf| == CHUNK
      modifies this`osCalls, this`seeded, this`sinceSeed, this`sources, drbgKey, drbgCtr, dst
      ensures Valid()
      ensures take == Min(n - p, CHUNK)
      ensures !ok ==> dst[..] == old(dst[..])
      ensures !ok ==> DrbgFill(env, old(Rng()).(rbuf := buf), n - p) == (Rng().(rbuf := buf), None)
      ensures ok ==> |chunk| == take && Written(old(dst[..]), dst[..], p, chunk)
      ensures ok ==>
        var rest := DrbgFill(env, Rng().(rbuf := buf), n - p - take);
        DrbgFill(env, old(Rng()).(rbuf := buf), n - p) == (rest.0, L.Prepend(chunk, [slice], rest.1))
    {
      hide DrbgFill, Reseed, Generate, Keystream, Written, NeedsReseed, SeedCall, L.Prepend;
      ghost var seed := SeedCall(Rng().(rbuf := buf));
      L.DrbgFillRound(env, Rng().(rbuf := buf), n - p);
      take, chunk, slice := Min(n - p, CHUNK), [], Slice(0, 0, 0);
      ok := ReseedWhenDue(buf);
      if !ok {
        return;
      }
      chunk, slice := Keystream(env.cipher, drbgKey[..], drbgCtr[..], 0, take), Slice(|sources|, 0, take);
      GenerateChunk(dst, p, take, seed, buf);
    }

    /** fu_drbg_fill: dst may be the serving buffer itself. */
    method FillFromDrbg(dst: array<byte>, n: nat) returns (ok: bool)
      requires Valid() && n <= dst.Length && dst != drbgKey && dst != drbgCtr
      modifies this`osCalls, this`seeded, this`sinceSeed, this`sources, drbgKey, drbgCtr, dst
      ensures Valid()
      ensures Rng() == DrbgFill(env, old(Rng()), n).0.(rbuf := rbuf[..])
      ensures ok <==> DrbgFill(env, old(Rng()), n).1.Some?
      ensures ok ==> Written(old(dst[..]), dst[..], 0, DrbgFill(env, old(Rng()), n).1.value.bytes)
      ensures !ok && n <= CHUNK ==> dst[..] == old(dst[..])
    {
      hide DrbgFill, Written, L.Prepend;
      ghost var r0, was := Rng(), dst[..];
      ghost var out: seq<byte>, slices: seq<Slice> := [], [];
      var p := 0;
      WrittenEmpty(was);
      PrependNothing(env, r0, n);
      assert Rng().(rbuf := r0.rbuf) == r0;
      while p < n
        invariant Valid() && p <= n && |out| == p && (p > 0 && n <= CHUNK ==> p == n)
        invariant Written(was, dst[..], 0, out)
        invariant p == 0 ==> dst[..] == was
        invariant var rest := DrbgFill(env, Rng().(rbuf := r0.rbuf), n - p);
          DrbgFill(env, r0, n) == (rest.0, L.Prepend(out, slices, rest.1))
      {
        ghost var mid := dst[..];
        var more, take;
        ghost var chunk, slice;
        more, take, chunk, slice := FillRound(dst, p, n, r0.rbuf);
        if !more {
          PrependNone(out, slices);
          return false;
        }
        WrittenOnce(was, mid, dst[..], 0, out, chunk);
        PrependMore(out, slices, chunk, slice, DrbgFill(env, Rng().(rbuf := r0.rbuf), n - p - take).1);
        out, slices := out + chunk, slices + [slice];
        p := p + take;
      }
      DrbgFillDone(env, Rng().(rbuf := r0.rbuf), out, slices);
      return true;
    }

    /** fu_rand_fill */
    method FillRandom(dst: array<byte>, n: nat) returns (ok: bool)
      requires Valid() && n <= dst.Length && dst != drbgKey && dst != drbgCtr
      modifies this`osCalls, this`seeded, this`sinceSeed, this`sources, drbgKey, drbgCtr, dst
      ensures Valid()
      ensures Rng() == RandFill(env, old(Rng()), n).0.(rbuf := rbuf[..])
      ensures ok <==> RandFill(env, old(Rng()), n).1.Some?
      ensures ok ==> Written(old(dst[..]), dst[..], 0, RandFill(env, old(Rng()), n).1.value.bytes)
      ensures !ok && n <= CHUNK ==> dst[..] == old(dst[..])
    {
      if env.aes {
        ok := FillFromDrbg(dst, n);
      } else {
        ok := OsRandom(dst, n);
        if ok {
          sources := sources + [OsRead(old(osCalls), n)];
        }
      }
    }

    method RefillBuffer() returns (ok: bool)
      requires Valid()
      modifies this`osCalls, this`seeded, this`sinceSeed, this`sources, this`rpos, this`inBuffer
      modifies rbuf, drbgKey, drbgCtr
      ensures Valid()
      ensures (Rng(), ok) == Refill(env, old(Rng()))
    {
      hide RandFill;
      ghost var before := |sources|;
      FillKeepsBuffer(env, Rng(), CHUNK);
      ok := FillRandom(rbuf, CHUNK);
      if ok {
        assert rbuf[..] == RandFill(env, old(Rng()), CHUNK).1.value.bytes;
        rpos, inBuffer := 0, before;
      }
    }

    /** Serves from the buffer. */
    method Serve(dst: array<byte>, n: nat)
      requires Valid() && n <= dst.Length && Foreign(dst) && rpos + n <= CHUNK
      modifies this`rpos, this`given, dst
      ensures Valid()
      ensures var r := old(Rng());
        Rng() == r.(rpos := r.rpos + n,
                    given := r.given + if n == 0 then [] else [Slice(r.inBuffer, r.rpos, r.rpos + n)])
      ensures Written(old(dst[..]), dst[..], 0, old(rbuf[rpos..rpos + n]))
    {
      hide Written;
      Copy(dst, 0, rbuf[rpos..rpos + n]);
      rpos := rpos + n;
      given := given + if n == 0 then [] else [Slice(inBuffer, rpos - n, rpos)];
    }

    /** fu_rand: dst is zeroed on failure. */
    method Rand(dst: array<byte>, n: nat) returns (ok: bool)
      requires Valid() && n <= dst.Length && Foreign(dst)
      modifies this`osCalls, this`seeded, this`sinceSeed, this`sources, this`rpos, this`inBuffer, this`given
      modifies rbuf, drbgKey, drbgCtr, dst
      ensures Valid()
      ensures Rng() == Csprng.Rand(env, old(Rng()), n).0
      ensures ok <==> Csprng.Rand(env, old(Rng()), n).1.Some?
      ensures ok ==> Written(old(dst[..]), dst[..], 0, Csprng.Rand(env, old(Rng()), n).1.value.bytes)
      ensures !ok ==> dst[..n] == seq(n, _ => 0)
    {
      hide RandFill, Refill, Written;
      ok := true;
      if n > CHUNK {
        ghost var r0 := Rng();
        FillKeepsBuffer(env, r0, n);
        ok := FillRandom(dst, n);
        if ok {
          given := given + RandFill(env, r0, n).1.value.slices;
        }
      } else {
        if rpos + n > CHUNK {
          ok := RefillBuffer();
          RefillSpendsNothing(env, old(Rng()));
        }
        if ok {
          Serve(dst, n);
        }
      }
      if !ok {
        Zero(dst, n);
      }
    }

    method Zero(dst: array<byte>, n: nat)
      requires n <= dst.Length
      modifies dst
      ensures dst[..n] == seq(n, _ => 0)
    {
      Copy(dst, 0, seq<byte>(n, _ => 0));
    }

    /** A draw into a buffer of its own. */
    method DrawBytes(n: nat) returns (ok: bool, s: seq<byte>)
      requires Valid()
      modifies this`osCalls, this`seeded, this`sinceSeed, this`sources, this`rpos, this`inBuffer, this`given
      modifies rbuf, drbgKey, drbgCtr
      ensures Valid()
      ensures Rng() == Csprng.Rand(env, old(Rng()), n).0
      ensures ok <==> Csprng.Rand(env, old(Rng()), n).1.Some?
      ensures |s| == n && (ok ==> s == Csprng.Rand(env, old(Rng()), n).1.value.bytes)
    {
      hide Csprng.Rand;
      var dst := new byte[n];
      ok := Rand(dst, n);
      s := dst[..];
    }

    /** fast_uuid_random_bytes */
    method RandomBytes(n: int) returns (res: Option<seq<byte>>)
      requires Valid()
      modifies this`osCalls, this`seeded, this`sinceSeed, this`sources, this`rpos, this`inBuffer, this`given
      modifies rbuf, drbgKey, drbgCtr
      ensures Valid()
      ensures Rng() == Csprng.RandomBytes(env, old(Rng()), n).0
      ensures res.Some? <==> Csprng.RandomBytes(env, old(Rng()), n).1.Some?
      ensures res.Some? ==> res.value == Csprng.RandomBytes(env, old(Rng()), n).1.value.bytes
    {
      hide Csprng.Rand, RandFill;
      if n <= 0 || n > MAX_RANDOM_BYTES {
        return None;
      }
      var s := new byte[n];
      var ok;
      if CHUNK / 2 < n < CHUNK {
        ghost var r0 := Rng();
        FillKeepsBuffer(env, r0, n);
        ok := FillRandom(s, n);
        if ok {
          given := given + RandFill(env, r0, n).1.value.slices;
        }
      } else {
        ok := Rand(s, n);
      }
      return if ok then Some(s[..]) else None;
    }

    method SeedPrng() returns (ok: bool)
      requires Valid()
      modifies this`osCalls, this`seeded, this`sinceSeed, this`sources, this`rpos, this`inBuffer, this`given
      modifies this`prngSeeded, rbuf, drbgKey, drbgCtr, prng
      ensures Valid()
      ensures var (r, d) := Csprng.Rand(env, old(Rng()), 32);
        && ok == d.Some?
        && View() == if ok then old(View()).(rng := r, prng := Gen.SeedXs(d.value.bytes), prngSeeded := true)
                     else old(View()).(rng := r, prng := X.ZERO)
    {
      hide Csprng.Rand, Gen.SeedXs;
      var s;
      ok, s := DrawBytes(32);
      if ok {
        StoreSeed(s);
        prngSeeded := true;
      } else {
        ClearPrng();
      }
    }

    method ClearPrng()
      requires Valid()
      modifies prng
      ensures X.Xs(prng[0], prng[1], prng[2], prng[3]) == X.ZERO
    {
      prng[0], prng[1], prng[2], prng[3] := 0, 0, 0, 0;
    }

    /** 32 random bytes as four words, the all-zero state avoided. */
    method StoreSeed(s: seq<byte>)
      requires Valid() && |s| == 32
      modifies prng
      ensures X.Xs(prng[0], prng[1], prng[2], prng[3]) == Gen.SeedXs(s)
    {
      hide Gen.LaneWord;
      prng[0], prng[1] := Gen.LaneWord(s[..8]), Gen.LaneWord(s[8..16]);
      prng[2], prng[3] := Gen.LaneWord(s[16..24]), Gen.LaneWord(s[24..]);
      var zero := AllZero(prng[0], prng[1], prng[2], prng[3]);
      if zero {
        prng[0] := 0x9e3779b97f4a7c15;
      }
    }

    /** fu_xs_next: seeds from the CSPRNG on first use, then steps in place. */
    method XsNext() returns (res: Option<bv64>)
      requires Valid()
      modifies this, rbuf, drbgKey, drbgCtr, prng
      ensures Valid()
      ensures (View(), res) == Gen.XsNext(env, old(View()))
    {
      hide Csprng.Rand, X.Scramble, X.Rotl45, X.Shl17, X.Xor, Gen.SeedXs;
      if !prngSeeded {
        var ok := SeedPrng();
        if !ok {
          return None;
        }
      }
      var r := XsStep();
      return Some(r);
    }

    method XsStep() returns (r: bv64)
      requires Valid()
      modifies prng
      ensures Valid()
      ensures View() == old(View()).(prng := X.Next(old(View()).prng))
      ensures r == X.Output(old(View()).prng)
    {
      hide X.Scramble, X.Rotl45, X.Shl17, X.Xor;
      r := X.Scramble(prng[1]);
      var t := X.Shl17(prng[1]);
      prng[2] := X.Xor(prng[2], prng[0]);
      prng[3] := X.Xor(prng[3], prng[1]);
      prng[1] := X.Xor(prng[1], prng[2]);
      prng[0] := X.Xor(prng[0], prng[3]);
      prng[2] := X.Xor(prng[2], t);
      prng[3] := X.Rotl45(prng[3]);
    }

    method WipeRandomness()
      requires Valid()
      modifies this`seeded, this`sinceSeed, this`rpos, rbuf, drbgKey, drbgCtr
      ensures Valid()
      ensures Rng() == ForkReset(old(Rng()))
      ensures rpos == CHUNK && sinceSeed == 0 && !seeded
      ensures forall i :: 0 <= i < CHUNK ==> rbuf[i] == 0
      ensures forall i :: 0 <= i < 32 ==> drbgKey[i] == 0
      ensures forall i :: 0 <= i < 16 ==> drbgCtr[i] == 0
    {
      hide Written;
      Overwrite(rbuf, Ginit().rbuf);
      Overwrite(drbgKey, Ginit().key);
      Overwrite(drbgCtr, Ginit().ctr);
      seeded, sinceSeed := false, 0;
      rpos := CHUNK;
    }

    /** fu_atfork_child */
    method AtforkChild()
      requires Valid()
      modifies this, rbuf, drbgKey, drbgCtr, prng
      ensures Valid()
      ensures View() == Gen.Fork(old(View()))
      ensures rpos == CHUNK && sinceSeed == 0 && !seeded
      ensures v7Key == 0 && v7RandB == 0 && !v7Initialized && !prngSeeded && gregLast == 0 && v2Last == 0
      ensures forall i :: 0 <= i < CHUNK ==> rbuf[i] == 0
      ensures forall i :: 0 <= i < 32 ==> drbgKey[i] == 0
      ensures forall i :: 0 <= i < 16 ==> drbgCtr[i] == 0
      ensures prng[0] == prng[1] == prng[2] == prng[3] == 0
    {
      hide ForkReset;
      WipeRandomness();
      prng[0], prng[1], prng[2], prng[3] := 0, 0, 0, 0;
      prngSeeded := false;
      v7Key, v7RandB, v7Initialized := 0, 0, false;
      gregLast, v2Last := 0, 0;
    }

    // ---- generators --------------------------------------------------------

    method GregMonotonic(clk: Gen.Clock) returns (t: Option<Time60>)
      requires Valid()
      modifies this`gregLast
      ensures (View(), t) == Gen.GregMonotonic(old(View()), clk)
    {
      var now := Gen.GregNow(clk);
      if now.None? {
        return None;
      }
      var g := now.value;
      if g <= gregLast {
        if gregLast == TWO60 - 1 {
          return None;
        }
        g := gregLast + 1;
      }
      gregLast := g;
      return Some(g);
    }

    method V2Monotonic(clk: Gen.Clock) returns (t: Option<Time60>)
      requires Valid()
      modifies this`v2Last
      ensures (View(), t) == Gen.V2Monotonic(old(View()), clk)
    {
      var now := Gen.GregNow(clk);
      if now.None? {
        return None;
      }
      var g := now.value;
      var vis := g / TWO32;
      if vis <= v2Last {
        if v2Last == TWO28 - 1 {
          return None;
        }
        vis := v2Last + 1;
      }
      v2Last := vis;
      return Some(vis * TWO32 + g % TWO32);
    }

    /** fu_lay_clockseq_node */
    method LayTail(node: Option<Node>, cs: Option<ClockSeq>) returns (tail: Option<Tail>)
      requires Valid()
      modifies this`osCalls, this`seeded, this`sinceSeed, this`sources, this`rpos, this`inBuffer, this`given
      modifies rbuf, drbgKey, drbgCtr
      ensures Valid()
      ensures (Rng(), tail) == Gen.LayTail(env, old(Rng()), node, cs)
    {
      hide Csprng.Rand, TailBytes, Gen.RandomNode, Gen.RandomClockSeq;
      var ok, s;
      if cs.None? && node.None? {
        ok, s := DrawBytes(8);
        return if ok then Some(TailBytes(Gen.RandomNode(s[..6]), Gen.RandomClockSeq(s[6], s[7]))) else None;
      }
      if cs.None? {
        ok, s := DrawBytes(2);
        return if ok then Some(TailBytes(node.value, Gen.RandomClockSeq(s[0], s[1]))) else None;
      }
      if node.None? {
        ok, s := DrawBytes(6);
        return if ok then Some(TailBytes(Gen.RandomNode(s), cs.value)) else None;
      }
      return Some(TailBytes(node.value, cs.value));
    }

    /** fu_gen_v1_ex and fu_gen_v6_ex */
    method GenGreg(six: bool, clk: Gen.Clock, node: Option<Node>, cs: Option<ClockSeq>) returns (u: Option<Uuid>)
      requires Valid()
      modifies this, rbuf, drbgKey, drbgCtr
      ensures Valid()
      ensures (View(), u) == Gen.GenGreg(env, old(View()), six, clk, node, cs)
    {
      hide Gen.LayTail, Gen.GregMonotonic, V1, V6;
      var t := GregMonotonic(clk);
      if t.None? {
        return None;
      }
      var tail := LayTail(node, cs);
      if tail.None? {
        return None;
      }
      return Some(if six then V6(t.value, tail.value) else V1(t.value, tail.value));
    }

    method GenV2(clk: Gen.Clock, id: LocalId, domain: byte, node: Option<Node>, cs: Option<ClockSeq>)
      returns (u: Option<Uuid>)
      requires Valid()
      modifies this, rbuf, drbgKey, drbgCtr
      ensures Valid()
      ensures (View(), u) == Gen.GenV2(env, old(View()), clk, id, domain, node, cs)
    {
      hide Gen.LayTail, Gen.V2Monotonic, Gen.GregNow, V1, StampV2;
      var t;
      if node.Some? && cs.Some? {
        t := V2Monotonic(clk);
      } else {
        t := Gen.GregNow(clk);
      }
      if t.None? {
        return None;
      }
      var tail := LayTail(node, cs);
      if tail.None? {
        return None;
      }
      return Some(StampV2(V1(t.value, tail.value), id, domain));
    }

    method V7Increment(c: Gen.Counter) returns (res: Option<Gen.Counter>)
      requires Valid()
      modifies this`osCalls, this`seeded, this`sinceSeed, this`sources, this`rpos, this`inBuffer, this`given
      modifies rbuf, drbgKey, drbgCtr
      ensures Valid()
      ensures (Rng(), res) == Gen.Increment(env, old(Rng()), c)
    {
      hide Csprng.Rand, Gen.StepOf;
      var ok, s := DrawBytes(3);
      if !ok {
        return None;
      }
      var key: Time60, next: Word := c.key, c.randb + Gen.StepOf(s);
      if next > TWO62 - 1 {
        if key == TWO60 - 1 {
          return None;
        }
        key := key + 1;
        next := next % TWO62;
      }
      return Some(Gen.Counter(key, next));
    }

    method V7Start(key: Time60) returns (res: Option<Gen.Counter>)
      requires Valid()
      modifies this`osCalls, this`seeded, this`sinceSeed, this`sources, this`rpos, this`inBuffer, this`given
      modifies rbuf, drbgKey, drbgCtr
      ensures Valid()
      ensures (Rng(), res) == Gen.Start(env, old(View()), key)
    {
      hide Csprng.Rand, Gen.RandomRandB, Gen.Increment;
      if !v7Initialized || key > v7Key {
        var ok, s := DrawBytes(8);
        return if ok then Some(Gen.Counter(key, Gen.RandomRandB(s))) else None;
      }
      res := V7Increment(Gen.Counter(v7Key, v7RandB));
    }

    method GenV7(clk: Gen.Clock) returns (u: Option<Uuid>)
      requires Valid()
      modifies this, rbuf, drbgKey, drbgCtr
      ensures Valid()
      ensures (View(), u) == Gen.GenV7(env, old(View()), clk)
    {
      hide Gen.Start, V7OfKey, Gen.UnixNanos, Gen.TimeKey;
      var ns := Gen.UnixNanos(clk);
      if ns.None? {
        return None;
      }
      var c := V7Start(Gen.TimeKey(ns.value));
      if c.None? {
        return None;
      }
      v7Key, v7RandB, v7Initialized := c.value.key, c.value.randb, true;
      return Some(V7OfKey(c.value.key, c.value.randb));
    }

    /** The fill loop of a batch: the counter lives in locals. */
    method BatchLoop(start: Gen.Counter, n: nat) returns (ok: bool, list: seq<Uuid>, c: Gen.Counter)
      requires Valid() && n > 0
      modifies this`osCalls, this`seeded, this`sinceSeed, this`sources, this`rpos, this`inBuffer, this`given
      modifies rbuf, drbgKey, drbgCtr
      ensures Valid()
      ensures |list| > 0 && list == [V7OfKey(start.key, start.randb)] + list[1..]
      ensures Gen.BatchTail(env, old(Rng()), start, n - 1) == Gen.Batch(Rng(), c, list[1..], ok)
    {
      hide Gen.BatchTail, Gen.Increment, V7OfKey, BatchSoFar;
      ghost var r0 := Rng();
      c, ok, list := start, true, [];
      var i := 0;
      while i < n
        invariant Valid() && i <= n && ok
        invariant i == 0 ==> list == [] && c == start && Rng() == r0
        invariant i > 0 ==> BatchSoFar(env, r0, start, n - 1, list, Rng(), c, n - i)
      {
        if i > 0 {
          ghost var r1 := Rng();
          var next := V7Increment(c);
          BatchStep(env, r0, start, n - 1, list, r1, c, n - i);
          if next.None? {
            return false, list, c;
          }
          c := next.value;
        } else {
          BatchBegin(env, r0, c, n - 1);
        }
        list := list + [V7OfKey(c.key, c.randb)];
        i := i + 1;
      }
      BatchEnd(env, r0, start, n - 1, list, Rng(), c);
    }

    /** fu_gen_v7_batch_n: one clock reading, the globals written once at the end. */
    method GenV7Batch(clk: Gen.Clock, n: nat) returns (ok: bool, list: seq<Uuid>)
      requires Valid() && n > 0
      modifies this, rbuf, drbgKey, drbgCtr
      ensures Valid()
      ensures (View(), list, ok) == Gen.GenV7Batch(env, old(View()), clk, n)
    {
      hide Gen.Start, Gen.BatchTail, V7OfKey, Gen.UnixNanos, Gen.TimeKey;
      var ns := Gen.UnixNanos(clk);
      if ns.None? {
        return false, [];
      }
      var start := V7Start(Gen.TimeKey(ns.value));
      if start.None? {
        return false, [];
      }
      var c;
      ok, list, c := BatchLoop(start.value, n);
      v7Key, v7RandB, v7Initialized := c.key, c.randb, true;
    }

    method GenV7At(ms: Gen.Millis, sub: Gen.SubMs) returns (u: Option<Uuid>)
      requires Valid()
      modifies this, rbuf, drbgKey, drbgCtr
      ensures Valid()
      ensures (View(), u) == Gen.GenV7At(env, old(View()), ms, sub)
    {
      hide Csprng.Rand, V7, Gen.RandomRandB;
      var ok, s := DrawBytes(8);
      return if ok then Some(V7(ms, sub, Gen.RandomRandB(s))) else None;
    }

    method GenV4() returns (u: Option<Uuid>)
      requires Valid()
      modifies this, rbuf, drbgKey, drbgCtr
      ensures Valid()
      ensures (View(), u) == Gen.GenV4(env, old(View()))
    {
      hide Csprng.Rand, Gen.SetVersion;
      var ok, s := DrawBytes(16);
      return if ok then Some(Gen.SetVersion(s, 4)) else None;
    }

    method GenV4Fast() returns (u: Option<Uuid>)
      requires Valid()
      modifies this, rbuf, drbgKey, drbgCtr, prng
      ensures Valid()
      ensures (View(), u) == Gen.GenV4Fast(env, old(View()))
    {
      hide Gen.XsNext, Gen.SetVersion, Gen.WordBytes;
      var a := XsNext();
      if a.None? {
        return None;
      }
      var c := XsNext();
      if c.None? {
        return None;
      }
      return Some(Gen.SetVersion(Gen.WordBytes(a.value) + Gen.WordBytes(c.value), 4));
    }

    /** Any call: the state and the caller's result are those of the run model. */
    method Handle(ev: Gen.Event) returns (o: Gen.Outcome)
      requires Valid()
      modifies this, rbuf, drbgKey, drbgCtr, prng
      ensures Valid()
      ensures (View(), o) == Gen.Step(env, old(View()), ev)
    {
      hide Gen.GenGreg, Gen.GenV2, Gen.GenV7, Gen.GenV7Batch, Gen.GenV7At, Gen.GenV4, Gen.GenV4Fast,
           Csprng.Rand, Csprng.RandomBytes, Gen.Fork;
      var u;
      match ev
      case GetGreg(six, clk, node, cs) => u := GenGreg(six, clk, node, cs); o := ToOutcome(u);
      case GetV2(clk, id, domain, node, cs) => u := GenV2(clk, id, domain, node, cs); o := ToOutcome(u);
      case GetV7(clk) => u := GenV7(clk); o := ToOutcome(u);
      case GetV7Batch(clk, count) =>
        if count <= 0 || count > Gen.MAX_BATCH {
          return Gen.Failed;
        }
        var ok, list := GenV7Batch(clk, count);
        o := if ok then Gen.Uuids(list) else Gen.Failed;
      case GetV7At(ms, sub) => u := GenV7At(ms, sub); o := ToOutcome(u);
      case GetV4 => u := GenV4(); o := ToOutcome(u);
      case GetV4Fast => u := GenV4Fast(); o := ToOutcome(u);
      case GetRandomBytes(n) =>
        var s := RandomBytes(n);
        o := if s.Some? then Gen.Raw(s.value) else Gen.Failed;
      case GetDraw(n) =>
        var ok, s := DrawBytes(n);
        o := if ok then Gen.Raw(s) else Gen.Failed;
      case ForkChild => AtforkChild(); o := Gen.Silent;
    }

    /** A whole run on the object returns and leaves what the run theorems speak of. */
    method HandleAll(evs: seq<Gen.Event>) returns (outs: seq<Gen.Outcome>)
      requires Valid()
      modifies this, rbuf, drbgKey, drbgCtr, prng
      ensures Valid()
      ensures View() == Gen.Run(env, old(View()), evs)
      ensures Runs.OutcomesOf(env, old(View()), evs, outs)
      ensures Runs.NoFork(evs) ==> Runs.Ordered(evs, outs)
    {
      hide Gen.Step, Runs.Ordered;
      outs := [];
      for i := 0 to |evs|
        invariant Valid() && View() == Gen.Run(env, old(View()), evs[..i])
        invariant |outs| == i && forall j :: 0 <= j < i ==> outs[j] == Gen.LastOutcome(env, old(View()), evs[..j + 1])
      {
        assert evs[..i + 1][..i] == evs[..i];
        var o := Handle(evs[i]);
        outs := outs + [o];
      }
      assert evs[..|evs|] == evs;
      if Runs.NoFork(evs) {
        Runs.OutcomesOrdered(env, old(View()), evs, outs);
      }
    }
  }

  function ToOutcome(u: Option<Uuid>): Gen.Outcome {
    if u.None? then Gen.Failed else Gen.Uuids([u.value])
  }

  method AllZero(a: bv64, b: bv64, c: bv64, d: bv64) returns (zero: bool)
    ensures zero <==> a == 0 && b == 0 && c == 0 && d == 0
  {
    zero := a | b | c | d == 0;
  }

  // ---- proof steps of the batch loop ---------------------------------------

  /** list is the first UUID and what a batch of m more has appended when k are left. */
  ghost predicate BatchSoFar(env: Env, r0: Rng, c0: Gen.Counter, m: nat,
                             list: seq<Uuid>, r: Rng, c: Gen.Counter, k: nat)
  {
    && |list| > 0 && list[0] == V7OfKey(c0.key, c0.randb)
    && var rest := Gen.BatchTail(env, r, c, k);
       Gen.BatchTail(env, r0, c0, m) == rest.(list := list[1..] + rest.list)
  }

  lemma BatchBegin(env: Env, r: Rng, c: Gen.Counter, m: nat)
    ensures BatchSoFar(env, r, c, m, [] + [V7OfKey(c.key, c.randb)], r, c, m)
  {
    hide Gen.BatchTail, V7OfKey;
    var rest := Gen.BatchTail(env, r, c, m);
    assert [V7OfKey(c.key, c.randb)][1..] + rest.list == rest.list;
  }

  lemma BatchStep(env: Env, r0: Rng, c0: Gen.Counter, m: nat, list: seq<Uuid>, r: Rng, c: Gen.Counter, k: nat)
    requires k > 0 && BatchSoFar(env, r0, c0, m, list, r, c, k)
    ensures var (r', c') := Gen.Increment(env, r, c);
      if c'.None? then
        && Gen.BatchTail(env, r0, c0, m) == Gen.Batch(r', c, list[1..], false)
        && |list| > 0 && list == [V7OfKey(c0.key, c0.randb)] + list[1..]
      else
        BatchSoFar(env, r0, c0, m, list + [V7OfKey(c'.value.key, c'.value.randb)], r', c'.value, k - 1)
  {
    hide Gen.Increment, V7OfKey;
    var (r', c') := Gen.Increment(env, r, c);
    if c'.None? {
      assert list[1..] + [] == list[1..];
    } else {
      var u := V7OfKey(c'.value.key, c'.value.randb);
      var rest := Gen.BatchTail(env, r', c'.value, k - 1);
      assert (list + [u])[1..] + rest.list == list[1..] + ([u] + rest.list);
    }
  }

  lemma BatchEnd(env: Env, r0: Rng, c0: Gen.Counter, m: nat, list: seq<Uuid>, r: Rng, c: Gen.Counter)
    requires BatchSoFar(env, r0, c0, m, list, r, c, 0)
    ensures |list| > 0 && list == [V7OfKey(c0.key, c0.randb)] + list[1..]
    ensures Gen.BatchTail(env, r0, c0, m) == Gen.Batch(r, c, list[1..], true)
  {
    hide V7OfKey;
    assert list[1..] + [] == list[1..];
  }

  // ---- proof steps of the fill loop ----------------------------------------

  lemma PrependNone(out: seq<byte>, slices: seq<Slice>)
    ensures L.Prepend(out, slices, None) == None
  {
  }

  /** Filling touches neither the serving buffer nor its cursor. */
  lemma {:induction false} DrbgFillKeepsBuffer(env: Env, r: Rng, n: nat)
    ensures var r' := DrbgFill(env, r, n).0;
      r'.rbuf == r.rbuf && r'.rpos == r.rpos && r'.inBuffer == r.inBuffer && r'.given == r.given
    decreases n
  {
    hide Keystream, NextKey, NextCtr, Xor, OsData;
    if n > 0 {
      var (r1, ok) := if NeedsReseed(r) then Reseed(env, r) else (r, true);
      if ok {
        DrbgFillKeepsBuffer(env, Generate(env, r1, Min(n, CHUNK), SeedCall(r)), n - Min(n, CHUNK));
      }
    }
  }

  lemma FillKeepsBuffer(env: Env, r: Rng, n: nat)
    ensures var r' := RandFill(env, r, n).0;
      r'.rbuf == r.rbuf && r'.rpos == r.rpos && r'.inBuffer == r.inBuffer && r'.given == r.given
  {
    DrbgFillKeepsBuffer(env, r, n);
  }

  lemma RefillSpendsNothing(env: Env, r: Rng)
    ensures Refill(env, r).1 ==> Refill(env, r).0.rpos == 0
  {
  }

  lemma WrittenEmpty(was: seq<byte>)
    ensures Written(was, was, 0, [])
  {
  }

  lemma PrependNothing(env: Env, r: Rng, n: nat)
    ensures var rest := DrbgFill(env, r, n); rest == (rest.0, L.Prepend([], [], rest.1))
  {
    hide DrbgFill;
    var d := DrbgFill(env, r, n).1;
    if d.Some? {
      assert [] + d.value.bytes == d.value.bytes && [] + d.value.slices == d.value.slices;
    }
  }

  lemma PrependMore(out: seq<byte>, slices: seq<Slice>, chunk: seq<byte>, s: Slice, d: Option<Draw>)
    ensures L.Prepend(out, slices, L.Prepend(chunk, [s], d)) == L.Prepend(out + chunk, slices + [s], d)
  {
    if d.Some? {
      assert out + (chunk + d.value.bytes) == out + chunk + d.value.bytes;
      assert slices + ([s] + d.value.slices) == slices + [s] + d.value.slices;
    }
  }

  lemma DrbgFillDone(env: Env, r: Rng, out: seq<byte>, slices: seq<Slice>)
    ensures DrbgFill(env, r, 0).0 == r && L.Prepend(out, slices, DrbgFill(env, r, 0).1) == Some(Draw(out, slices))
  {
    assert out + [] == out && slices + [] == slices;
  }

  lemma ReseedIgnoresBuffer(env: Env, r: Rng, buf: seq<byte>)
    requires |buf| == CHUNK
    ensures Reseed(env, r.(rbuf := buf)).0 == Reseed(env, r).0.(rbuf := buf)
    ensures Reseed(env, r.(rbuf := buf)).1 == Reseed(env, r).1
  {
  }
}
