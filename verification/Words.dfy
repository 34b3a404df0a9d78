/** Bytes as bits, and a 64-bit word in memory, lowest byte first. */
module Words {
  function Odd(n: nat): bv8 { if n % 2 == 1 then 1 else 0 }

  /** The binary digits of a byte, by repeated halving. */
  function ToBits(b: nat): bv8 {
    var h1 := b / 2; var h2 := h1 / 2; var h3 := h2 / 2; var h4 := h3 / 2;
    var h5 := h4 / 2; var h6 := h5 / 2; var h7 := h6 / 2;
    Odd(b) | (Odd(h1) << 1) | (Odd(h2) << 2) | (Odd(h3) << 3) |
    (Odd(h4) << 4) | (Odd(h5) << 5) | (Odd(h6) << 6) | (Odd(h7) << 7)
  }

  function Weight(x: bv8, w: nat): nat { if x & 1 == 1 then w else 0 }

  function OfBits(x: bv8): (b: int)
    ensures 0 <= b < 256
  {
    Weight(x, 1) + Weight(x >> 1, 2) + Weight(x >> 2, 4) + Weight(x >> 3, 8) +
    Weight(x >> 4, 16) + Weight(x >> 5, 32) + Weight(x >> 6, 64) + Weight(x >> 7, 128)
  }

  lemma BitsApart(d0: bv8, d1: bv8, d2: bv8, d3: bv8, d4: bv8, d5: bv8, d6: bv8, d7: bv8)
    requires d0 <= 1 && d1 <= 1 && d2 <= 1 && d3 <= 1 && d4 <= 1 && d5 <= 1 && d6 <= 1 && d7 <= 1
    ensures var x := d0 | (d1 << 1) | (d2 << 2) | (d3 << 3) | (d4 << 4) | (d5 << 5) | (d6 << 6) | (d7 << 7);
      && x & 1 == d0 && (x >> 1) & 1 == d1 && (x >> 2) & 1 == d2 && (x >> 3) & 1 == d3
      && (x >> 4) & 1 == d4 && (x >> 5) & 1 == d5 && (x >> 6) & 1 == d6 && (x >> 7) & 1 == d7
  {
  }

  lemma WeightOf(x: bv8, n: nat, w: nat)
    requires x & 1 == Odd(n)
    ensures Weight(x, w) == n % 2 * w
  {
  }

  lemma OddBit(n: nat)
    ensures Odd(n) <= 1
  {
  }

  /** x has the binary digits n0, n1, ... by parity. */
  ghost predicate HasBits(x: bv8, n0: nat, n1: nat, n2: nat, n3: nat, n4: nat, n5: nat, n6: nat, n7: nat) {
    && x & 1 == Odd(n0) && (x >> 1) & 1 == Odd(n1) && (x >> 2) & 1 == Odd(n2) && (x >> 3) & 1 == Odd(n3)
    && (x >> 4) & 1 == Odd(n4) && (x >> 5) & 1 == Odd(n5) && (x >> 6) & 1 == Odd(n6) && (x >> 7) & 1 == Odd(n7)
  }

  lemma OfBitsSum(x: bv8, n0: nat, n1: nat, n2: nat, n3: nat, n4: nat, n5: nat, n6: nat, n7: nat)
    requires HasBits(x, n0, n1, n2, n3, n4, n5, n6, n7)
    ensures OfBits(x) == n0 % 2 + n1 % 2 * 2 + n2 % 2 * 4 + n3 % 2 * 8 +
      n4 % 2 * 16 + n5 % 2 * 32 + n6 % 2 * 64 + n7 % 2 * 128
  {
    hide Odd, Weight;
    WeightOf(x, n0, 1);
    WeightOf(x >> 1, n1, 2);
    WeightOf(x >> 2, n2, 4);
    WeightOf(x >> 3, n3, 8);
    WeightOf(x >> 4, n4, 16);
    WeightOf(x >> 5, n5, 32);
    WeightOf(x >> 6, n6, 64);
    WeightOf(x >> 7, n7, 128);
  }

  lemma ToBitsBits(b: nat)
    ensures var h1 := b / 2; var h2 := h1 / 2; var h3 := h2 / 2; var h4 := h3 / 2;
      var h5 := h4 / 2; var h6 := h5 / 2; HasBits(ToBits(b), b, h1, h2, h3, h4, h5, h6, h6 / 2)
  {
    hide Odd;
    var h1 := b / 2; var h2 := h1 / 2; var h3 := h2 / 2; var h4 := h3 / 2;
    var h5 := h4 / 2; var h6 := h5 / 2; var h7 := h6 / 2;
    OddBit(b);
    OddBit(h1);
    OddBit(h2);
    OddBit(h3);
    OddBit(h4);
    OddBit(h5);
    OddBit(h6);
    OddBit(h7);
    BitsApart(Odd(b), Odd(h1), Odd(h2), Odd(h3), Odd(h4), Odd(h5), Odd(h6), Odd(h7));
  }

  lemma BitsReadBack(b: nat)
    requires b < 256
    ensures OfBits(ToBits(b)) == b
  {
    hide *;
    var h1 := b / 2; var h2 := h1 / 2; var h3 := h2 / 2; var h4 := h3 / 2;
    var h5 := h4 / 2; var h6 := h5 / 2; var h7 := h6 / 2;
    ToBitsBits(b);
    OfBitsSum(ToBits(b), b, h1, h2, h3, h4, h5, h6, h7);
    BinarySum(b, h1, h2, h3, h4, h5, h6, h7);
  }

  lemma BinarySum(n: nat, h1: nat, h2: nat, h3: nat, h4: nat, h5: nat, h6: nat, h7: nat)
    requires n < 256 && h1 == n / 2 && h2 == h1 / 2 && h3 == h2 / 2
    requires h4 == h3 / 2 && h5 == h4 / 2 && h6 == h5 / 2 && h7 == h6 / 2
    ensures n == n % 2 + h1 % 2 * 2 + h2 % 2 * 4 + h3 % 2 * 8 + h4 % 2 * 16 + h5 % 2 * 32 + h6 % 2 * 64 + h7 % 2 * 128
  {
    Halved(n, h1, h2, h3);
    Halved(h4, h5, h6, h7);
  }

  lemma Halved(n: nat, h1: nat, h2: nat, h3: nat)
    requires h1 == n / 2 && h2 == h1 / 2 && h3 == h2 / 2
    ensures n == n % 2 + h1 % 2 * 2 + h2 % 2 * 4 + h3 % 2 * 8 + h3 / 2 * 16
  {
  }

  function Lane(b: int): bv64
    requires 0 <= b < 256
  {
    ToBits(b) as bv64
  }

  function LowByte(x: bv64): (b: int)
    ensures 0 <= b < 256
  {
    OfBits((x & 0xff) as bv8)
  }

  lemma LowByteOf(x: bv64, b: int)
    requires 0 <= b < 256
    ensures Lane(b) <= 0xff
    ensures x & 0xff == Lane(b) ==> LowByte(x) == b
  {
    hide ToBits, OfBits;
    BitsReadBack(b);
    LowBits(x, ToBits(b));
  }

  lemma LowBits(x: bv64, b: bv8)
    ensures b as bv64 <= 0xff
    ensures x & 0xff == b as bv64 ==> (x & 0xff) as bv8 == b
  {
  }

  lemma LaneBits(b0: bv64, b1: bv64, b2: bv64, b3: bv64, b4: bv64, b5: bv64, b6: bv64, b7: bv64)
    requires b0 <= 0xff && b1 <= 0xff && b2 <= 0xff && b3 <= 0xff
    requires b4 <= 0xff && b5 <= 0xff && b6 <= 0xff && b7 <= 0xff
    ensures var x := b0 | (b1 << 8) | (b2 << 16) | (b3 << 24) | (b4 << 32) | (b5 << 40) | (b6 << 48) | (b7 << 56);
      && x & 0xff == b0 && (x >> 8) & 0xff == b1 && (x >> 16) & 0xff == b2 && (x >> 24) & 0xff == b3
      && (x >> 32) & 0xff == b4 && (x >> 40) & 0xff == b5 && (x >> 48) & 0xff == b6 && (x >> 56) & 0xff == b7
  {
  }

  lemma SmallLanes()
    ensures Lane(0) == 0 && Lane(1) == 1 && LowByte(0) == 0
  {
  }
}
