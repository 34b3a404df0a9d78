/** Positional notation in any base: what a string of digits denotes, most significant
    digit first, and that comparing digit by digit compares the numbers. */
module Positional {
  function Number(base: nat, ds: seq<nat>): nat {
    if |ds| == 0 then 0 else Number(base, ds[..|ds| - 1]) * base + ds[|ds| - 1]
  }

  function Pow(base: nat, n: nat): (p: nat)
    ensures base >= 1 ==> p >= 1
  {
    if n == 0 then 1 else base * Pow(base, n - 1)
  }

  predicate Digits(base: nat, ds: seq<nat>) {
    forall i :: 0 <= i < |ds| ==> ds[i] < base
  }

  lemma OneDigit(base: nat, ds: seq<nat>)
    requires |ds| == 1
    ensures Number(base, ds) == ds[0]
  {
    assert ds[..0] == [];
  }

  lemma {:induction false} NumberConcat(base: nat, a: seq<nat>, b: seq<nat>)
    ensures Number(base, a + b) == Number(base, a) * Pow(base, |b|) + Number(base, b)
  {
    if |b| == 0 {
      assert a + b == a;
    } else {
      var n := |b| - 1;
      NumberConcat(base, a, b[..n]);
      assert (a + b)[..|a| + n] == a + b[..n];
      Regroup(Number(base, a), base, Pow(base, n), Number(base, b[..n]));
    }
  }

  lemma Regroup(a: nat, base: nat, p: nat, b: nat)
    ensures (a * p + b) * base == a * (base * p) + b * base
  {
  }

  lemma {:induction false} NumberBound(base: nat, ds: seq<nat>)
    requires Digits(base, ds)
    ensures Number(base, ds) < Pow(base, |ds|)
  {
    if |ds| > 0 {
      var n := |ds| - 1;
      NumberBound(base, ds[..n]);
      PairOrder(base, Number(base, ds[..n]), ds[n], Pow(base, n), 0);
    }
  }

  /** Of two two-part numbers the higher part decides unless it ties. */
  lemma PairOrder(base: nat, p: nat, d: nat, q: nat, e: nat)
    requires d < base && e < base
    ensures p * base + d < q * base + e <==> p < q || (p == q && d < e)
  {
    if p < q {
      assert (p + 1) * base <= q * base;
    } else if q < p {
      assert (q + 1) * base <= p * base;
    }
  }

  /** At the first differing position a has the smaller digit. */
  ghost predicate LexLess(a: seq<nat>, b: seq<nat>)
    requires |a| == |b|
  {
    exists i :: 0 <= i < |a| && a[..i] == b[..i] && a[i] < b[i]
  }

  /** The longest proper prefix decides unless it ties. */
  lemma LexLessStep(a: seq<nat>, b: seq<nat>)
    requires |a| == |b| > 0
    ensures var n := |a| - 1;
      LexLess(a, b) <==> LexLess(a[..n], b[..n]) || (a[..n] == b[..n] && a[n] < b[n])
  {
    var n := |a| - 1;
    var p, q := a[..n], b[..n];
    if LexLess(a, b) {
      var i :| 0 <= i < |a| && a[..i] == b[..i] && a[i] < b[i];
      if i < n {
        assert p[..i] == a[..i] && q[..i] == b[..i] && p[i] < q[i];
      }
    }
    if LexLess(p, q) {
      var i :| 0 <= i < |p| && p[..i] == q[..i] && p[i] < q[i];
      assert p[..i] == a[..i] && q[..i] == b[..i] && a[i] < b[i];
    }
  }

  lemma NumberStep(base: nat, ds: seq<nat>)
    requires |ds| > 0
    ensures Number(base, ds) == Number(base, ds[..|ds| - 1]) * base + ds[|ds| - 1]
  {
  }

  /** Digit strings of one length are ordered as the numbers they denote, and differ
      when they do. */
  lemma {:induction false} LexLessIsNumeric(base: nat, a: seq<nat>, b: seq<nat>)
    requires |a| == |b| && Digits(base, a) && Digits(base, b)
    ensures LexLess(a, b) <==> Number(base, a) < Number(base, b)
    ensures a == b <==> Number(base, a) == Number(base, b)
  {
    hide LexLess, Number;
    if |a| == 0 {
      NothingLess(a, b);
    } else {
      var n := |a| - 1;
      LexLessStep(a, b);
      LexLessIsNumeric(base, a[..n], b[..n]);
      NumberStep(base, a);
      NumberStep(base, b);
      PairOrder(base, Number(base, a[..n]), a[n], Number(base, b[..n]), b[n]);
      PairOrder(base, Number(base, b[..n]), b[n], Number(base, a[..n]), a[n]);
      assert a == a[..n] + [a[n]] && b == b[..n] + [b[n]];
    }
  }

  lemma NothingLess(a: seq<nat>, b: seq<nat>)
    requires |a| == |b| == 0
    ensures !LexLess(a, b)
  {
  }
}
