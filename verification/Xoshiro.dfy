/** The xoshiro256** step behind uuid_v4_fast(). */
module Xoshiro {
  datatype Xs = Xs(s0: bv64, s1: bv64, s2: bv64, s3: bv64)

  const ZERO := Xs(0, 0, 0, 0)

  function Rotl7(x: bv64): bv64 { (x << 7) | (x >> 57) }
  function Rotl45(x: bv64): bv64 { (x << 45) | (x >> 19) }
  function Rotl19(x: bv64): bv64 { (x << 19) | (x >> 45) }
  function Shl17(x: bv64): bv64 { x << 17 }

  function Xor(a: bv64, b: bv64): bv64 { a ^ b }

  /** Undoes x ^ (x << 17). */
  function Unmix(x: bv64): bv64 {
    Xor(Xor(x, Shl17(x)), Xor(Shl17(Shl17(x)), Shl17(Shl17(Shl17(x)))))
  }

  function Times5(x: bv64): bv64 { x * 5 }
  function Times9(x: bv64): bv64 { x * 9 }

  /** The ** scrambler. */
  function Scramble(x: bv64): bv64 { Times9(Rotl7(Times5(x))) }

  lemma Cancel5(x: bv64, y: bv64)
    requires Times5(x) == Times5(y)
    ensures x == y
  {
  }

  lemma Cancel9(x: bv64, y: bv64)
    requires Times9(x) == Times9(y)
    ensures x == y
  {
  }

  lemma CancelRotate(x: bv64, y: bv64)
    requires Rotl7(x) == Rotl7(y)
    ensures x == y
  {
  }

  /** Different words stay different: the scrambler loses nothing. */
  lemma ScrambleIsInjective(x: bv64, y: bv64)
    requires Scramble(x) == Scramble(y)
    ensures x == y
  {
    hide Rotl7, Times5, Times9;
    Cancel9(Rotl7(Times5(x)), Rotl7(Times5(y)));
    CancelRotate(Times5(x), Times5(y));
    Cancel5(x, y);
  }

  /** The reference outputs of xoshiro256** from the state (1, 2, 3, 4). */
  lemma ReferenceOutputs()
    ensures var s := Xs(1, 2, 3, 4);
      && Output(s) == 11520
      && Output(Next(s)) == 0
      && Output(Next(Next(s))) == 1509978240
      && Output(Next(Next(Next(s)))) == 1215971899390074240
  {
  }

  function Output(s: Xs): bv64 { Scramble(s.s1) }

  function Next(s: Xs): Xs {
    var a2 := Xor(s.s2, s.s0);
    var a3 := Xor(s.s3, s.s1);
    Xs(Xor(s.s0, a3), Xor(s.s1, a2), Xor(a2, Shl17(s.s1)), Rotl45(a3))
  }

  /** The state a step came from. */
  function Prev(s: Xs): Xs {
    var a3 := Rotl19(s.s3);
    var s1 := Unmix(Xor(s.s1, s.s2));
    var s0 := Xor(s.s0, a3);
    Xs(s0, s1, Xor(Xor(s.s1, s1), s0), Xor(a3, s1))
  }

  lemma RotlInverse(x: bv64)
    ensures Rotl19(Rotl45(x)) == x && Rotl45(Rotl19(x)) == x
  {
  }

  lemma Shl17Linear(a: bv64, b: bv64)
    ensures Shl17(Xor(a, b)) == Xor(Shl17(a), Shl17(b))
  {
  }

  lemma Shl17Dies(x: bv64)
    ensures Shl17(Shl17(Shl17(Shl17(x)))) == 0
  {
  }

  lemma XorExchange(a: bv64, b: bv64, c: bv64, d: bv64)
    ensures Xor(Xor(a, b), Xor(c, d)) == Xor(Xor(a, c), Xor(b, d))
  {
    hide Xor;
    XorAssoc(a, b, Xor(c, d));
    XorAssoc(b, c, d);
    XorComm(b, c);
    XorAssoc(c, b, d);
    XorAssoc(a, c, Xor(b, d));
  }

  lemma XorAssoc(a: bv64, b: bv64, c: bv64)
    ensures Xor(Xor(a, b), c) == Xor(a, Xor(b, c))
  {
  }

  lemma XorComm(a: bv64, b: bv64)
    ensures Xor(a, b) == Xor(b, a)
  {
  }

  lemma XorZero(a: bv64)
    ensures Xor(a, 0) == a
  {
  }

  lemma XorTelescopes(a: bv64, b: bv64, c: bv64, d: bv64)
    ensures Xor(Xor(Xor(a, b), Xor(b, c)), Xor(Xor(c, d), Xor(d, 0))) == a
    ensures Xor(Xor(Xor(a, b), Xor(c, d)), Xor(Xor(b, c), Xor(d, 0))) == a
  {
    hide Xor;
    XorMeet(a, b, c);
    XorMeet(c, d, 0);
    XorMeet(a, c, 0);
    XorZero(a);
    XorExchange(Xor(a, b), Xor(c, d), Xor(b, c), Xor(d, 0));
  }

  lemma MixUnmix(x: bv64)
    ensures Unmix(Xor(x, Shl17(x))) == x
    ensures Xor(Unmix(x), Shl17(Unmix(x))) == x
  {
    hide Shl17, Xor;
    var x1 := Shl17(x); var x2 := Shl17(x1); var x3 := Shl17(x2);
    Shl17Dies(x);
    Shl17Linear(x, x1);
    Shl17Linear(x1, x2);
    Shl17Linear(x2, x3);
    Shl17Linear(Xor(x, x1), Xor(x2, x3));
    XorTelescopes(x, x1, x2, x3);
  }

  lemma XorUndo(a: bv64, b: bv64)
    ensures Xor(Xor(a, b), b) == a && Xor(b, Xor(a, b)) == a && Xor(Xor(a, b), a) == b
  {
  }

  lemma XorMeet(a: bv64, b: bv64, t: bv64)
    ensures Xor(Xor(a, b), Xor(b, t)) == Xor(a, t)
  {
  }

  lemma XorSwap(a: bv64, b: bv64, p: bv64, t: bv64)
    requires Xor(p, t) == Xor(a, b)
    ensures Xor(Xor(a, p), t) == b
  {
  }

  lemma PrevNext(s: Xs)
    ensures Prev(Next(s)) == s
  {
    hide Rotl45, Rotl19, Shl17, Unmix, Xor;
    var a2, a3 := Xor(s.s2, s.s0), Xor(s.s3, s.s1);
    RotlInverse(a3);
    XorMeet(s.s1, a2, Shl17(s.s1));
    MixUnmix(s.s1);
    XorUndo(s.s0, a3);
    XorUndo(s.s1, a2);
    XorUndo(s.s2, s.s0);
    XorUndo(s.s3, s.s1);
  }

  lemma NextPrev(s: Xs)
    ensures Next(Prev(s)) == s
  {
    hide Rotl45, Rotl19, Shl17, Unmix, Xor;
    var a3, p1 := Rotl19(s.s3), Unmix(Xor(s.s1, s.s2));
    var p0 := Xor(s.s0, a3);
    RotlInverse(s.s3);
    MixUnmix(Xor(s.s1, s.s2));
    XorUndo(a3, p1);
    XorUndo(s.s0, a3);
    XorUndo(Xor(s.s1, p1), p0);
    XorUndo(s.s1, p1);
    XorSwap(s.s1, s.s2, p1, Shl17(p1));
  }

  /** The step is a bijection on 256-bit states that fixes zero, so it never
      reaches zero from anywhere else. */
  lemma NextIsBijective(s: Xs)
    ensures Prev(Next(s)) == s
    ensures Next(Prev(s)) == s
    ensures Next(s) == ZERO <==> s == ZERO
  {
    hide Next, Prev;
    PrevNext(s);
    NextPrev(s);
    ZeroFixed();
  }

  lemma ZeroFixed()
    ensures Next(ZERO) == ZERO && Prev(ZERO) == ZERO
  {
  }
}
