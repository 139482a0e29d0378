/**
 * Vectors of reals, as the score arithmetic uses them: their sum, the L1
 * distance between two of equal length, and what adding, scaling and bounding
 * them does to either. Decayed repeats a product k times, which is the product
 * with the k-th power. Times and Per name a product and a quotient, so that a
 * proof may treat each as one term and call the one law about it that it needs.
 */
module Sums {
  function Abs(x: real): real { if x < 0.0 then -x else x }

  function Sum(s: seq<real>): real {
    if |s| == 0 then 0.0 else Sum(s[..|s| - 1]) + s[|s| - 1]
  }

  // Named, so that a product is one term to the solver.
  function Times(x: real, y: real): real { x * y }

  function Per(x: real, n: nat): real
    requires n > 0
  {
    x / n as real
  }

  function Constant(x: real, n: nat): seq<real> { seq(n, _ => x) }

  function Plus(a: seq<real>, b: seq<real>): seq<real>
    requires |a| == |b|
  {
    seq(|a|, i requires 0 <= i < |a| => a[i] + b[i])
  }

  function Scale(c: real, a: seq<real>): seq<real> {
    seq(|a|, i requires 0 <= i < |a| => Times(c, a[i]))
  }

  function Difference(a: seq<real>, b: seq<real>): seq<real>
    requires |a| == |b|
  {
    seq(|a|, i requires 0 <= i < |a| => a[i] - b[i])
  }

  function AbsEach(s: seq<real>): seq<real> {
    seq(|s|, i requires 0 <= i < |s| => Abs(s[i]))
  }

  /** The L1 distance between two vectors of the same length. */
  function Distance(a: seq<real>, b: seq<real>): real
    requires |a| == |b|
  {
    Sum(AbsEach(Difference(a, b)))
  }

  predicate NonNegative(s: seq<real>) {
    forall i :: 0 <= i < |s| ==> s[i] >= 0.0
  }

  /** `x` multiplied `k` times by `d`. */
  function Decayed(d: real, k: nat, x: real): real {
    if k == 0 then x else Times(d, Decayed(d, k - 1, x))
  }

  function Pow(x: real, k: nat): real {
    if k == 0 then 1.0 else Times(x, Pow(x, k - 1))
  }

  lemma {:induction false} DecayedIsPower(d: real, k: nat, x: real)
    ensures Decayed(d, k, x) == Times(Pow(d, k), x)
  {
    if k > 0 { DecayedIsPower(d, k - 1, x); }
  }

  lemma {:induction false} SumPlus(a: seq<real>, b: seq<real>)
    requires |a| == |b|
    ensures Sum(Plus(a, b)) == Sum(a) + Sum(b)
  {
    if |a| > 0 {
      var k := |a| - 1;
      SumPlus(a[..k], b[..k]);
      assert Plus(a, b)[..k] == Plus(a[..k], b[..k]);
    }
  }

  lemma {:induction false} SumScale(c: real, a: seq<real>)
    ensures Sum(Scale(c, a)) == Times(c, Sum(a))
  {
    if |a| > 0 {
      var k := |a| - 1;
      SumScale(c, a[..k]);
      assert Scale(c, a)[..k] == Scale(c, a[..k]);
    }
  }

  lemma DifferenceOfScaled(base: seq<real>, c: real, a: seq<real>, b: seq<real>)
    requires |base| == |a| == |b|
    ensures Difference(Plus(base, Scale(c, a)), Plus(base, Scale(c, b))) == Scale(c, Difference(a, b))
  {
    forall i | 0 <= i < |a| ensures Times(c, a[i]) - Times(c, b[i]) == Times(c, a[i] - b[i]) {
    }
  }

  lemma SumDifference(a: seq<real>, b: seq<real>)
    requires |a| == |b|
    ensures Sum(Difference(a, b)) == Sum(a) - Sum(b)
  {
    SumPlus(Difference(a, b), b);
    assert Plus(Difference(a, b), b) == a;
  }

  lemma {:induction false} SumConstant(x: real, n: nat)
    ensures Sum(Constant(x, n)) == n as real * x
  {
    if n > 0 {
      SumConstant(x, n - 1);
      assert Constant(x, n)[..n - 1] == Constant(x, n - 1);
      assert n as real * x == (n - 1) as real * x + x;
    }
  }

  lemma {:induction false} SumMonotone(a: seq<real>, b: seq<real>)
    requires |a| == |b|
    requires forall i :: 0 <= i < |a| ==> a[i] <= b[i]
    ensures Sum(a) <= Sum(b)
  {
    if |a| > 0 { SumMonotone(a[..|a| - 1], b[..|b| - 1]); }
  }

  lemma {:induction false} SumNonNegative(a: seq<real>)
    requires NonNegative(a)
    ensures Sum(a) >= 0.0
  {
    if |a| > 0 { SumNonNegative(a[..|a| - 1]); }
  }

  /** Raising one component by `x` raises the sum by `x`. */
  lemma {:induction false} SumBump(a: seq<real>, t: nat, x: real, r: seq<real>)
    requires |a| == |r| && t < |a|
    requires forall i :: 0 <= i < |a| ==> r[i] == if i == t then a[i] + x else a[i]
    ensures Sum(r) == Sum(a) + x
  {
    var k := |a| - 1;
    if t == k {
      assert a[..k] == r[..k];
    } else {
      SumBump(a[..k], t, x, r[..k]);
    }
  }

  lemma {:induction false} AbsSum(s: seq<real>)
    ensures Abs(Sum(s)) <= Sum(AbsEach(s))
  {
    if |s| > 0 {
      AbsSum(s[..|s| - 1]);
      assert AbsEach(s)[..|s| - 1] == AbsEach(s[..|s| - 1]);
    }
  }

  lemma TimesMonotone(c: real, x: real, y: real)
    requires c >= 0.0 && x <= y
    ensures Times(c, x) <= Times(c, y)
  {
  }

  lemma AbsScale(c: real, a: seq<real>)
    ensures AbsEach(Scale(c, a)) == Scale(Abs(c), AbsEach(a))
  {
    forall i | 0 <= i < |a| ensures AbsEach(Scale(c, a))[i] == Scale(Abs(c), AbsEach(a))[i] {
    }
  }

  lemma DistanceTriangle(a: seq<real>, b: seq<real>, c: seq<real>)
    requires |a| == |b| == |c|
    ensures Distance(a, c) <= Distance(a, b) + Distance(b, c)
  {
    var ab, bc := AbsEach(Difference(a, b)), AbsEach(Difference(b, c));
    SumPlus(ab, bc);
    SumMonotone(AbsEach(Difference(a, c)), Plus(ab, bc));
  }

  lemma {:induction false} DistanceToSelf(a: seq<real>)
    ensures Distance(a, a) == 0.0
  {
    SumConstant(0.0, |a|);
    assert AbsEach(Difference(a, a)) == Constant(0.0, |a|);
  }
}
