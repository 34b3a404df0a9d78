/** fu_aes_ctr on arrays: an eight-block loop, a two-block tail that computes one
    block too many when the output ends in its first half, and in-line rekeying. */
module AesStream {
  import opened Bytes
  import opened Csprng

  /** `now` is `was` with the bytes from `off` on replaced by `out`. */
  ghost predicate Written(was: seq<byte>, now: seq<byte>, off: nat, out: seq<byte>) {
    && off + |out| <= |was|
    && now == was[..off] + out + was[off + |out|..]
  }

  lemma WrittenOnce(was: seq<byte>, mid: seq<byte>, now: seq<byte>, off: nat, a: seq<byte>, b: seq<byte>)
    requires Written(was, mid, off, a) && Written(mid, now, off + |a|, b)
    ensures Written(was, now, off, a + b)
  {
    assert mid[off + |a| + |b|..] == was[off + |a| + |b|..];
    assert mid[..off + |a|] == was[..off] + a;
    assert was[..off] + a + b == was[..off] + (a + b);
  }

  /** memcpy */
  method Copy(dst: array<byte>, at: nat, src: seq<byte>)
    requires at + |src| <= dst.Length
    modifies dst
    ensures Written(old(dst[..]), dst[..], at, src)
  {
    for i := 0 to |src|
      invariant forall j :: 0 <= j < i ==> dst[at + j] == src[j]
      invariant dst[..at] == old(dst[..at]) && dst[at + i..] == old(dst[at + i..])
    {
      dst[at + i] := src[i];
    }
    assert dst[at..at + |src|] == src;
    assert dst[..] == dst[..at] + dst[at..at + |src|] + dst[at + |src|..];
  }

  method Overwrite(dst: array<byte>, src: seq<byte>)
    requires dst.Length == |src|
    modifies dst
    ensures dst[..] == src
  {
    Copy(dst, 0, src);
  }

  lemma WrittenNothing(was: seq<byte>, off: nat, cipher: Cipher, key: Key, ctr: Block)
    requires off <= |was|
    ensures Written(was, was, off, Keystream(cipher, key, ctr, 0, 0))
  {
  }

  lemma KeystreamGrows(cipher: Cipher, key: Key, ctr: Block, p: nat, blocks: seq<byte>, n: nat)
    requires p % 16 == 0 && n <= |blocks|
    requires forall i :: 0 <= i < |blocks| ==> blocks[i] == KsByte(cipher, key, ctr, p + i)
    ensures Keystream(cipher, key, ctr, 0, p) + blocks[..n] == Keystream(cipher, key, ctr, 0, p + n)
  {
    var l := Keystream(cipher, key, ctr, 0, p) + blocks[..n];
    var r := Keystream(cipher, key, ctr, 0, p + n);
    forall i | 0 <= i < |l|
      ensures l[i] == r[i]
    {
      assert r[i] == KsByte(cipher, key, ctr, i);
      if i < p {
        assert l[i] == Keystream(cipher, key, ctr, 0, p)[i];
      } else {
        assert l[i] == blocks[i - p];
      }
    }
  }

  /** Two consecutive keystream blocks are 32 consecutive keystream bytes. */
  lemma TwoBlocks(cipher: Cipher, key: Key, ctr: Block, j: nat, x0: Block, x1: Block)
    requires x0 == KsBlock(cipher, key, ctr, j) && x1 == KsBlock(cipher, key, ctr, j + 1)
    ensures forall i :: 0 <= i < 32 ==> (x0 + x1)[i] == KsByte(cipher, key, ctr, 16 * j + i)
  {
    forall i | 0 <= i < 32
      ensures (x0 + x1)[i] == KsByte(cipher, key, ctr, 16 * j + i)
    {
      assert (16 * j + i) / 16 == j + i / 16 && (16 * j + i) % 16 == i % 16;
    }
  }

  /** Stores two blocks of keystream, or the front of them, after p bytes of it. */
  method StorePair(dst: array<byte>, ghost was: seq<byte>, off: nat, p: nat, x0: Block, x1: Block, take: nat,
                   ghost cipher: Cipher, ghost key: Key, ghost ctr: Block)
    requires p % 16 == 0 && take <= 32
    requires off + p + take <= dst.Length == |was|
    requires Written(was, dst[..], off, Keystream(cipher, key, ctr, 0, p))
    requires x0 == KsBlock(cipher, key, ctr, p / 16) && x1 == KsBlock(cipher, key, ctr, p / 16 + 1)
    modifies dst
    ensures Written(was, dst[..], off, Keystream(cipher, key, ctr, 0, p + take))
  {
    ghost var mid := dst[..];
    Copy(dst, off + p, (x0 + x1)[..take]);
    TwoBlocks(cipher, key, ctr, p / 16, x0, x1);
    KeystreamGrows(cipher, key, ctr, p, x0 + x1, take);
    WrittenOnce(was, mid, dst[..], off, Keystream(cipher, key, ctr, 0, p), (x0 + x1)[..take]);
  }

  /** One step of the counter register: this block's input, and the register after it. */
  lemma CtrStep(cipher: Cipher, key: Key, ctr: Block, c: Block, j: nat)
    requires c == CtrAdd(ctr, j)
    ensures cipher(key, c) == KsBlock(cipher, key, ctr, j)
    ensures CtrAdd(c, 1) == CtrAdd(ctr, j + 1)
  {
    CtrAddAdds(ctr, j, 1);
  }

  /** Encrypts the counter register c and steps it. */
  method Step(cipher: Cipher, key: Key, c: Block, ghost ctr: Block, ghost j: nat) returns (b: Block, c': Block)
    requires c == CtrAdd(ctr, j)
    ensures b == KsBlock(cipher, key, ctr, j)
    ensures c' == CtrAdd(ctr, j + 1)
  {
    CtrStep(cipher, key, ctr, c, j);
    b, c' := cipher(key, c), CtrAdd(c, 1);
  }

  /** One pass of the eight-way loop, p bytes in. */
  method EightBlocks(cipher: Cipher, key: Key, c: Block, dst: array<byte>, off: nat, p: nat,
                     ghost was: seq<byte>, ghost ctr: Block) returns (c': Block)
    requires p % 16 == 0 && off + p + 128 <= dst.Length == |was|
    requires c == CtrAdd(ctr, p / 16)
    requires Written(was, dst[..], off, Keystream(cipher, key, ctr, 0, p))
    modifies dst
    ensures Written(was, dst[..], off, Keystream(cipher, key, ctr, 0, p + 128))
    ensures c' == CtrAdd(ctr, p / 16 + 8)
  {
    hide *;
    ghost var j := p / 16;
    c' := c;
    var b0, b1, b2, b3, b4, b5, b6, b7;
    b0, c' := Step(cipher, key, c', ctr, j);
    b1, c' := Step(cipher, key, c', ctr, j + 1);
    b2, c' := Step(cipher, key, c', ctr, j + 2);
    b3, c' := Step(cipher, key, c', ctr, j + 3);
    b4, c' := Step(cipher, key, c', ctr, j + 4);
    b5, c' := Step(cipher, key, c', ctr, j + 5);
    b6, c' := Step(cipher, key, c', ctr, j + 6);
    b7, c' := Step(cipher, key, c', ctr, j + 7);
    StorePair(dst, was, off, p,      b0, b1, 32, cipher, key, ctr);
    StorePair(dst, was, off, p + 32, b2, b3, 32, cipher, key, ctr);
    StorePair(dst, was, off, p + 64, b4, b5, 32, cipher, key, ctr);
    StorePair(dst, was, off, p + 96, b6, b7, 32, cipher, key, ctr);
  }

  /** The eight-way loop: all but the last 127 bytes. */
  method EightWay(cipher: Cipher, key: Key, ctr: Block, dst: array<byte>, off: nat, len: nat)
    returns (p: nat, c: Block)
    requires off + len <= dst.Length
    modifies dst
    ensures p <= len && p % 16 == 0 && c == CtrAdd(ctr, p / 16)
    ensures Written(old(dst[..]), dst[..], off, Keystream(cipher, key, ctr, 0, p))
  {
    hide CtrAdd, Keystream, Written;
    ghost var was := dst[..];
    p, c := 0, ctr;
    CtrAddZero(ctr);
    WrittenNothing(was, off, cipher, key, ctr);
    while len - p >= 128
      invariant p <= len && p % 128 == 0
      invariant c == CtrAdd(ctr, p / 16)
      invariant Written(was, dst[..], off, Keystream(cipher, key, ctr, 0, p))
    {
      c := EightBlocks(cipher, key, c, dst, off, p, was, ctr);
      p := p + 128;
    }
  }

  /** The blocks and counter steps of one pass of the tail loop, p bytes in: the
      register takes the second step only when the second block is used. */
  method TailPair(cipher: Cipher, key: Key, c: Block, rekey: bool, take: nat, ghost ctr: Block, ghost j: nat)
    returns (x0: Block, x1: Block, c': Block)
    requires c == CtrAdd(ctr, j)
    ensures x0 == KsBlock(cipher, key, ctr, j) && x1 == KsBlock(cipher, key, ctr, j + 1)
    ensures c' == CtrAdd(ctr, if rekey || take > 16 then j + 2 else j + 1)
  {
    x0, c' := Step(cipher, key, c, ctr, j);
    CtrStep(cipher, key, ctr, c', j + 1);
    x1 := cipher(key, c');
    if rekey || take > 16 {
      c' := CtrAdd(c', 1);
    }
  }

  lemma NextKeyIsTwoBlocks(cipher: Cipher, key: Key, ctr: Block, len: nat, x0: Block, x1: Block)
    requires x0 == KsBlock(cipher, key, ctr, Blocks(len)) && x1 == KsBlock(cipher, key, ctr, Blocks(len) + 1)
    ensures x0 + x1 == NextKey(cipher, key, ctr, len)
  {
    TwoBlocks(cipher, key, ctr, Blocks(len), x0, x1);
  }

  /** Counter mode: byte i of a keystream is byte i % 16 of the cipher at the counter
      i / 16 steps on; the successor key is the two blocks past the last one touched; and
      the next counter is as many steps on as blocks were used, those two included. */
  lemma StreamShows(cipher: Cipher, key: Key, ctr: Block, len: nat)
    ensures forall i :: 0 <= i < len ==>
      Keystream(cipher, key, ctr, 0, len)[i] == cipher(key, CtrAdd(ctr, i / 16))[i % 16]
    ensures NextKey(cipher, key, ctr, len)
      == cipher(key, CtrAdd(ctr, (len + 15) / 16)) + cipher(key, CtrAdd(ctr, (len + 15) / 16 + 1))
    ensures Le(NextCtr(ctr, len)[..8]) == (Le(ctr[..8]) + (len + 15) / 16 + 2) % TWO64
    ensures NextCtr(ctr, len)[8..] == ctr[8..]
  {
    var n := (len + 15) / 16;
    CtrAddLanes(ctr, n + 2);
    hide CtrAdd, Le;
    NextKeyIsTwoBlocks(cipher, key, ctr, len, KsBlock(cipher, key, ctr, n), KsBlock(cipher, key, ctr, n + 1));
    forall i | 0 <= i < len
      ensures Keystream(cipher, key, ctr, 0, len)[i] == cipher(key, CtrAdd(ctr, i / 16))[i % 16]
    {
      assert Keystream(cipher, key, ctr, 0, len)[i] == KsByte(cipher, key, ctr, i);
    }
  }

  lemma WrittenBytes(was: seq<byte>, now: seq<byte>, off: nat, out: seq<byte>)
    requires Written(was, now, off, out)
    ensures |now| == |was| && forall i :: 0 <= i < |out| ==> now[off + i] == out[i]
  {
  }

  /** Writes len bytes of keystream to dst at off, and nothing else there; replaces
      the key by the next 32 keystream bytes after the blocks touched, and advances
      the low counter lane by the number of blocks used, the two of the key included. */
  method AesCtr(cipher: Cipher, key: array<byte>, ctr: array<byte>, dst: array<byte>, off: nat, len: nat)
    requires key.Length == 32 && ctr.Length == 16 && off + len <= dst.Length
    requires key != ctr && key != dst && ctr != dst
    modifies key, ctr, dst
    ensures Written(old(dst[..]), dst[..], off, Keystream(cipher, old(key[..]), old(ctr[..]), 0, len))
    ensures key[..] == NextKey(cipher, old(key[..]), old(ctr[..]), len)
    ensures ctr[..] == NextCtr(old(ctr[..]), len)
    ensures forall i :: 0 <= i < len ==>
      dst[off + i] == cipher(old(key[..]), CtrAdd(old(ctr[..]), i / 16))[i % 16]
    ensures key[..] == cipher(old(key[..]), CtrAdd(old(ctr[..]), (len + 15) / 16))
                       + cipher(old(key[..]), CtrAdd(old(ctr[..]), (len + 15) / 16 + 1))
    ensures Le(ctr[..8]) == (Le(old(ctr[..8])) + (len + 15) / 16 + 2) % TWO64 && ctr[8..] == old(ctr[8..])
  {
    hide CtrAdd, Keystream, KsBlock, KsByte, NextKey, Written, Le;
    ghost var was, ctr0: Block := dst[..], ctr[..];
    var k: Key := key[..];
    var c: Block := ctr[..];
    var p;
    p, c := EightWay(cipher, k, c, dst, off, len);
    while true
      invariant p <= len && (p % 16 == 0 || p == len)
      invariant key[..] == k && ctr[..] == ctr0
      invariant c == CtrAdd(ctr0, Blocks(p))
      invariant Written(was, dst[..], off, Keystream(cipher, k, ctr0, 0, p))
      decreases len - p
    {
      var take := Min(len - p, 32);
      var rekey := take == 0;
      var x0, x1;
      x0, x1, c := TailPair(cipher, k, c, rekey, take, ctr0, Blocks(p));
      if rekey {
        Overwrite(key, x0[..] + x1[..]);
        NextKeyIsTwoBlocks(cipher, k, ctr0, len, x0, x1);
        break;
      }
      StorePair(dst, was, off, p, x0, x1, take, cipher, k, ctr0);
      p := p + take;
    }
    Overwrite(ctr, c);
    StreamShows(cipher, k, ctr0, len);
    WrittenBytes(was, dst[..], off, Keystream(cipher, k, ctr0, 0, len));
    assert ctr[..8] == c[..8] && ctr[8..] == c[8..] && old(ctr[..8]) == ctr0[..8] && old(ctr[8..]) == ctr0[8..];
  }
}
