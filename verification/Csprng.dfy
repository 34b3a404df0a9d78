/** The buffered CSPRNG of fast_uuid.c on values: AES-256-CTR with fast key
    erasure, OS reseeding, the 8 KiB serving buffer, and the fork reset.
    The block cipher and the operating system are arbitrary functions. */
module Csprng {
  import opened Positional
  import opened Bytes

  const CHUNK := 8192
  const RESEED_BYTES := 65536

  type Block = s: seq<byte> | |s| == 16 witness seq(16, _ => 0)
  type Key = s: seq<byte> | |s| == 32 witness seq(32, _ => 0)
  type Cipher = (Key, Block) -> Block

  /** One answer of php_random_bytes: an exception, or as many bytes as asked for. */
  datatype OsReply = OsFailed | OsBytes(at: nat -> byte)

  /** The process environment: whether the AES backend is active, the cipher, and
      what the OS answers to its k-th call. */
  datatype Env = Env(aes: bool, cipher: Cipher, os: nat -> OsReply)

  function OsData(env: Env, call: nat, n: nat): (s: seq<byte>)
    ensures |s| == n
  {
    seq<byte>(n, i requires 0 <= i => OsByte(env, call, i))
  }

  function OsByte(env: Env, call: nat, i: nat): byte {
    match env.os(call)
    case OsFailed => 0
    case OsBytes(at) => at(i)
  }

  // ---- counter lanes -------------------------------------------------------

  const TWO64 := 0x1_0000_0000_0000_0000

  /** The counter block n steps on: the low 64-bit lane (little-endian) wraps, the
      high lane stays. */
  function CtrAdd(ctr: Block, n: nat): Block {
    LeBytes((Le(ctr[..8]) + n) % TWO64, 8) + ctr[8..]
  }

  lemma CtrAddLanes(ctr: Block, n: nat)
    ensures Le(CtrAdd(ctr, n)[..8]) == (Le(ctr[..8]) + n) % TWO64
    ensures CtrAdd(ctr, n)[8..] == ctr[8..]
  {
    var lo := (Le(ctr[..8]) + n) % TWO64;
    assert CtrAdd(ctr, n)[..8] == LeBytes(lo, 8);
    Pow256Values();
    LeOfBytes(lo, 8);
  }

  lemma CtrAddAdds(ctr: Block, m: nat, n: nat)
    ensures CtrAdd(CtrAdd(ctr, m), n) == CtrAdd(ctr, m + n)
  {
    CtrAddLanes(ctr, m);
    ModAdd(Le(ctr[..8]) + m, n);
  }

  lemma ModAdd(x: nat, n: nat)
    ensures (x % TWO64 + n) % TWO64 == (x + n) % TWO64
  {
    var q := x / TWO64;
    assert x + n == x % TWO64 + n + q * TWO64;
  }

  lemma CtrAddZero(ctr: Block)
    ensures CtrAdd(ctr, 0) == ctr
  {
    hide Le, LeBytes, Pow;
    BytesOfLe(ctr[..8]);
    Pow256Values();
    assert ctr == ctr[..8] + ctr[8..];
  }

  /** Under one key no cipher input repeats: blocks fewer than 2^64 steps apart differ. */
  lemma CountersDistinct(ctr: Block, i: nat, j: nat)
    requires i < j < i + TWO64
    ensures CtrAdd(ctr, i) != CtrAdd(ctr, j)
  {
    hide CtrAdd, Le;
    CtrAddLanes(ctr, i);
    CtrAddLanes(ctr, j);
  }

  // ---- keystream -----------------------------------------------------------

  function KsBlock(cipher: Cipher, key: Key, ctr: Block, j: nat): Block {
    cipher(key, CtrAdd(ctr, j))
  }

  function KsByte(cipher: Cipher, key: Key, ctr: Block, i: nat): byte {
    KsBlock(cipher, key, ctr, i / 16)[i % 16]
  }

  /** Bytes from..to of the CTR keystream under (key, ctr). */
  function Keystream(cipher: Cipher, key: Key, ctr: Block, from: nat, to: nat): (s: seq<byte>)
    requires from <= to
    ensures |s| == to - from
  {
    seq<byte>(to - from, i requires 0 <= i => KsByte(cipher, key, ctr, from + i))
  }

  /** The number of keystream blocks len bytes touch. */
  function Blocks(len: nat): nat { (len + 15) / 16 }

  /** Fast key erasure: the successor key is the 32 keystream bytes after the
      last block the output touches. */
  function NextKey(cipher: Cipher, key: Key, ctr: Block, len: nat): Key {
    Keystream(cipher, key, ctr, 16 * Blocks(len), 16 * Blocks(len) + 32)
  }

  function NextCtr(ctr: Block, len: nat): Block {
    CtrAdd(ctr, Blocks(len) + 2)
  }

  // ---- state and history ---------------------------------------------------

  /** Where random bytes come from: one keystream (all of it under one key), or
      one OS call. `seed` is the OS call whose output was just mixed into the key. */
  datatype Source =
    | KeyEpoch(key: Key, ctr: Block, len: nat, seed: Option<nat>)
    | OsRead(call: nat, len: nat)

  /** Bytes from..to of source number src. */
  datatype Slice = Slice(src: nat, from: nat, to: nat)

  /** The module globals the CSPRNG uses, the number of OS calls made, and the
      history: every source drawn on, the one in the buffer, and every slice that
      reached a caller. */
  datatype RngState = RngState(
    rbuf: seq<byte>, rpos: nat, key: Key, ctr: Block, since: nat, seeded: bool,
    calls: nat,
    sources: seq<Source>, inBuffer: nat, given: seq<Slice>)

  type Rng = r: RngState | |r.rbuf| == CHUNK && r.rpos <= CHUNK
    witness RngState(seq(CHUNK, _ => 0), CHUNK, seq(32, _ => 0), seq(16, _ => 0), 0, false, 0, [], 0, [])

  /** Random bytes and the slices of sources they are. */
  datatype Draw = Draw(bytes: seq<byte>, slices: seq<Slice>)

  /** Module start: everything zero, the buffer spent. */
  function Ginit(): Rng {
    RngState(seq(CHUNK, _ => 0), CHUNK, seq(32, _ => 0), seq(16, _ => 0), 0, false, 0, [], 0, [])
  }

  /** What the atfork handler does to the child's copy. */
  function ForkReset(r: Rng): Rng {
    r.(rbuf := Ginit().rbuf, rpos := CHUNK, key := Ginit().key, ctr := Ginit().ctr,
       since := 0, seeded := false)
  }

  // ---- operations ----------------------------------------------------------

  /** Exclusive or of the n low binary digits. */
  function XorBits(a: nat, b: nat, n: nat): (x: nat)
    ensures x < Pow(2, n)
  {
    if n == 0 then 0 else (a + b) % 2 + 2 * XorBits(a / 2, b / 2, n - 1)
  }

  function XorByte(a: byte, b: byte): byte {
    assert Pow(2, 8) == 256;
    XorBits(a, b, 8)
  }

  /** The k-th binary digit, counted from the lowest. */
  function Bit(x: nat, k: nat): nat { if k == 0 then x % 2 else Bit(x / 2, k - 1) }

  lemma {:induction false} XorBitsAt(a: nat, b: nat, n: nat, k: nat)
    requires k < n
    ensures Bit(XorBits(a, b, n), k) == (Bit(a, k) + Bit(b, k)) % 2
  {
    XorBitsStep(a, b, n);
    LowBit(a, b, XorBits(a / 2, b / 2, n - 1));
    hide XorBits;
    if k > 0 {
      XorBitsAt(a / 2, b / 2, n - 1, k - 1);
    }
  }

  lemma {:induction false} XorBitsUndo(a: nat, b: nat, n: nat)
    requires b < Pow(2, n)
    ensures XorBits(XorBits(a, b, n), a, n) == b
  {
    if n > 0 {
      XorBitsUndo(a / 2, b / 2, n - 1);
      LowBit(a, b, XorBits(a / 2, b / 2, n - 1));
      XorBitsStep(a, b, n);
      XorBitsStep(XorBits(a, b, n), a, n);
      hide XorBits;
    }
  }

  lemma {:induction false} XorBitsZero(b: nat, n: nat)
    requires b < Pow(2, n)
    ensures XorBits(0, b, n) == b
  {
    if n > 0 {
      XorBitsZero(b / 2, n - 1);
    }
  }

  lemma XorBitsStep(a: nat, b: nat, n: nat)
    requires n > 0
    ensures XorBits(a, b, n) == (a + b) % 2 + 2 * XorBits(a / 2, b / 2, n - 1)
  {
  }

  lemma LowBit(a: nat, b: nat, q: nat)
    ensures var x := (a + b) % 2 + 2 * q;
      x / 2 == q && x % 2 == (a % 2 + b % 2) % 2 && (x + a) % 2 == b % 2
  {
  }

  /** Binary digits add modulo 2, so zero changes nothing, and mixing loses nothing:
      xoring the old byte out leaves the one mixed in. */
  lemma XorByteLaws(a: byte, b: byte)
    ensures forall k :: 0 <= k < 8 ==> Bit(XorByte(a, b), k) == (Bit(a, k) + Bit(b, k)) % 2
    ensures XorByte(0, b) == b
    ensures XorByte(XorByte(a, b), a) == b
  {
    assert Pow(2, 8) == 256;
    XorBitsUndo(a, b, 8);
    XorBitsZero(b, 8);
    forall k | 0 <= k < 8
      ensures Bit(XorByte(a, b), k) == (Bit(a, k) + Bit(b, k)) % 2
    {
      hide Bit;
      XorBitsAt(a, b, 8, k);
    }
  }

  function Xor(a: seq<byte>, b: seq<byte>): (s: seq<byte>)
    requires |a| <= |b|
    ensures |s| == |a|
  {
    seq<byte>(|a|, i requires 0 <= i < |a| => XorByte(a[i], b[i]))
  }

  /** Mixes 48 bytes of OS entropy into key and counter. */
  function Reseed(env: Env, r: Rng): (Rng, bool) {
    var r1 := r.(calls := r.calls + 1);
    if env.os(r.calls).OsFailed? then (r1, false)
    else
      var seed := OsData(env, r.calls, 48);
      (r1.(key := Xor(r.key, seed), ctr := Xor(r.ctr, seed[32..]), seeded := true, since := 0), true)
  }

  /** A reseed fails exactly when the OS does. Else xoring the old key and counter out of
      the new ones leaves the 48 bytes of the OS answer: none of it is lost. */
  lemma ReseedMixes(env: Env, r: Rng)
    ensures var (r', ok) := Reseed(env, r);
      && (ok <==> env.os(r.calls).OsBytes?)
      && r'.calls == r.calls + 1
      && (ok ==>
            && (forall i :: 0 <= i < 32 ==> XorByte(r'.key[i], r.key[i]) == env.os(r.calls).at(i))
            && (forall i :: 0 <= i < 16 ==> XorByte(r'.ctr[i], r.ctr[i]) == env.os(r.calls).at(32 + i)))
  {
    hide XorByte;
    var (r', ok) := Reseed(env, r);
    if ok {
      forall i | 0 <= i < 32
        ensures XorByte(r'.key[i], r.key[i]) == env.os(r.calls).at(i)
      {
        XorByteLaws(r.key[i], env.os(r.calls).at(i));
      }
      forall i | 0 <= i < 16
        ensures XorByte(r'.ctr[i], r.ctr[i]) == env.os(r.calls).at(32 + i)
      {
        XorByteLaws(r.ctr[i], env.os(r.calls).at(32 + i));
      }
    }
  }

  /** Different OS answers leave different keys or counters. */
  lemma ReseedIsInjective(env: Env, env': Env, r: Rng)
    requires Reseed(env, r).1 && Reseed(env', r).1
    requires Reseed(env, r).0 == Reseed(env', r).0
    ensures OsData(env, r.calls, 48) == OsData(env', r.calls, 48)
  {
    ReseedMixes(env, r);
    ReseedMixes(env', r);
    hide Reseed, XorByte;
    var r' := Reseed(env, r).0;
    var x, y := OsData(env, r.calls, 48), OsData(env', r.calls, 48);
    forall i | 0 <= i < 48
      ensures x[i] == y[i]
    {
      if i < 32 {
        assert XorByte(r'.key[i], r.key[i]) == x[i] == y[i];
      } else {
        assert XorByte(r'.ctr[i - 32], r.ctr[i - 32]) == x[i] == y[i];
      }
    }
  }

  /** From the zero state a reseed takes key and counter from the OS as they are. */
  lemma ReseedFromZero(env: Env, r: Rng)
    requires Reseed(env, r).1 && r.key == Ginit().key && r.ctr == Ginit().ctr
    ensures Reseed(env, r).0.key == OsData(env, r.calls, 48)[..32]
    ensures Reseed(env, r).0.ctr == OsData(env, r.calls, 48)[32..]
  {
    hide XorByte;
    var seed := OsData(env, r.calls, 48);
    forall i | 0 <= i < 48
      ensures XorByte(0, seed[i]) == seed[i]
    {
      XorByteLaws(0, seed[i]);
    }
    assert Xor(r.key, seed) == seed[..32];
    assert Xor(r.ctr, seed[32..]) == seed[32..];
  }

  predicate NeedsReseed(r: Rng) { !r.seeded || r.since >= RESEED_BYTES }

  /** The OS call a reseed would make now, if one is due. */
  function SeedCall(r: Rng): Option<nat> { if NeedsReseed(r) then Some(r.calls) else None }

  /** One fu_aes_ctr call on the global key. */
  function Generate(env: Env, r: Rng, len: nat, seed: Option<nat>): Rng {
    r.(key := NextKey(env.cipher, r.key, r.ctr, len), ctr := NextCtr(r.ctr, len),
       since := r.since + len, sources := r.sources + [KeyEpoch(r.key, r.ctr, len, seed)])
  }

  function Min(a: nat, b: nat): nat { if a < b then a else b }

  function DrbgFill(env: Env, r: Rng, n: nat): (res: (Rng, Option<Draw>))
    ensures res.1.Some? ==> |res.1.value.bytes| == n
    decreases n
  {
    if n == 0 then (r, Some(Draw([], [])))
    else
      var (r1, ok) := if NeedsReseed(r) then Reseed(env, r) else (r, true);
      if !ok then (r1, None)
      else
        var take := Min(n, CHUNK);
        var out := Keystream(env.cipher, r1.key, r1.ctr, 0, take);
        var slice := Slice(|r1.sources|, 0, take);
        var (r2, rest) := DrbgFill(env, Generate(env, r1, take, SeedCall(r)), n - take);
        (r2, if rest.None? then None else Some(Draw(out + rest.value.bytes, [slice] + rest.value.slices)))
  }

  /** php_random_bytes itself. */
  function OsFill(env: Env, r: Rng, n: nat): (res: (Rng, Option<Draw>))
    ensures res.1.Some? ==> |res.1.value.bytes| == n
  {
    var r1 := r.(calls := r.calls + 1);
    if env.os(r.calls).OsFailed? then (r1, None)
    else
      (r1.(sources := r.sources + [OsRead(r.calls, n)]),
       Some(Draw(OsData(env, r.calls, n), if n == 0 then [] else [Slice(|r.sources|, 0, n)])))
  }

  function RandFill(env: Env, r: Rng, n: nat): (res: (Rng, Option<Draw>))
    ensures res.1.Some? ==> |res.1.value.bytes| == n
  {
    if env.aes then DrbgFill(env, r, n) else OsFill(env, r, n)
  }

  function Deliver(res: (Rng, Option<Draw>)): (Rng, Option<Draw>) {
    if res.1.None? then res
    else (res.0.(given := res.0.given + res.1.value.slices), res.1)
  }

  function Refill(env: Env, r: Rng): (Rng, bool) {
    var (r1, d) := RandFill(env, r, CHUNK);
    if d.None? then (r1, false)
    else (r1.(rbuf := d.value.bytes, rpos := 0, inBuffer := |r.sources|), true)
  }

  /** fu_rand: n bytes to a caller, from the buffer when they fit it. */
  function Rand(env: Env, r: Rng, n: nat): (res: (Rng, Option<Draw>))
    ensures res.1.Some? ==> |res.1.value.bytes| == n
  {
    if n > CHUNK then Deliver(RandFill(env, r, n))
    else
      var (r1, ok) := if r.rpos + n > CHUNK then Refill(env, r) else (r, true);
      if !ok then (r1, None)
      else
        var to := r1.rpos + n;
        Deliver((r1.(rpos := to),
                 Some(Draw(r1.rbuf[r1.rpos..to], if n == 0 then [] else [Slice(r1.inBuffer, r1.rpos, to)]))))
  }

  const MAX_RANDOM_BYTES := 16 * 1024 * 1024

  /** fast_uuid_random_bytes(n): between half a buffer and a buffer it bypasses the buffer. */
  function RandomBytes(env: Env, r: Rng, n: int): (res: (Rng, Option<Draw>))
    ensures res.1.Some? ==> |res.1.value.bytes| == n
  {
    if n <= 0 || n > MAX_RANDOM_BYTES then (r, None)
    else if CHUNK / 2 < n < CHUNK then Deliver(RandFill(env, r, n))
    else Rand(env, r, n)
  }
}
