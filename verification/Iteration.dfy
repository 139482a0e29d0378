/**
 * Repeating a step that shrinks distances. A function on real vectors of one
 * length that brings any two of them closer by a factor brings their whole runs
 * closer by its powers, so successive iterates settle geometrically and stopping
 * early costs no more than a geometric tail. PageRank's iteration is the one
 * instance here.
 */
module Iteration {
  import opened Sums

  function Iter(f: seq<real> -> seq<real>, s: seq<real>, k: nat): seq<real> {
    if k == 0 then s else f(Iter(f, s, k - 1))
  }

  ghost predicate Contracts(f: seq<real> -> seq<real>, n: nat, c: real) {
    && c >= 0.0
    && (forall s: seq<real> :: |s| == n ==> |f(s)| == n)
    && (forall s: seq<real>, t: seq<real> {:trigger Distance(f(s), f(t))} ::
          |s| == |t| == n ==> Distance(f(s), f(t)) <= Times(c, Distance(s, t)))
  }

  lemma {:induction false} IterLength(f: seq<real> -> seq<real>, c: real, s: seq<real>, k: nat)
    requires Contracts(f, |s|, c)
    ensures |Iter(f, s, k)| == |s|
  {
    if k > 0 { IterLength(f, c, s, k - 1); }
  }

  lemma {:induction false} RunsDecay(f: seq<real> -> seq<real>, c: real, s: seq<real>, t: seq<real>, k: nat)
    requires |s| == |t| && Contracts(f, |s|, c)
    ensures |Iter(f, s, k)| == |Iter(f, t, k)| == |s|
    ensures Distance(Iter(f, s, k), Iter(f, t, k)) <= Decayed(c, k, Distance(s, t))
  {
    if k > 0 {
      RunsDecay(f, c, s, t, k - 1);
      TimesMonotone(c, Distance(Iter(f, s, k - 1), Iter(f, t, k - 1)), Decayed(c, k - 1, Distance(s, t)));
    }
  }

  lemma RunsApproach(f: seq<real> -> seq<real>, c: real, s: seq<real>, t: seq<real>, k: nat)
    requires |s| == |t| && Contracts(f, |s|, c)
    ensures |Iter(f, s, k)| == |Iter(f, t, k)| == |s|
    ensures Distance(Iter(f, s, k), Iter(f, t, k)) <= Times(Pow(c, k), Distance(s, t))
  {
    RunsDecay(f, c, s, t, k);
    DecayedIsPower(c, k, Distance(s, t));
  }

  lemma {:induction false} IterShift(f: seq<real> -> seq<real>, s: seq<real>, k: nat)
    ensures Iter(f, f(s), k) == Iter(f, s, k + 1)
  {
    if k > 0 { IterShift(f, s, k - 1); }
  }

  lemma SuccessiveIterates(f: seq<real> -> seq<real>, c: real, s: seq<real>, k: nat)
    requires Contracts(f, |s|, c)
    ensures |Iter(f, s, k)| == |Iter(f, s, k + 1)| == |f(s)| == |s|
    ensures Distance(Iter(f, s, k), Iter(f, s, k + 1)) <= Times(Pow(c, k), Distance(s, f(s)))
  {
    RunsApproach(f, c, s, f(s), k);
    IterShift(f, s, k);
  }

  function Tail(d: real, k: nat, m: nat, x: real): real {
    if m == 0 then 0.0 else Tail(d, k, m - 1, x) + Times(Pow(d, k + m - 1), x)
  }

  lemma {:induction false} TailIsGeometric(d: real, k: nat, m: nat, x: real)
    ensures Times(1.0 - d, Tail(d, k, m, x)) == Times(Pow(d, k) - Pow(d, k + m), x)
  {
    if m > 0 {
      TailIsGeometric(d, k, m - 1, x);
      TailStep(d, Tail(d, k, m - 1, x), Pow(d, k), Pow(d, k + m - 1), x);
    }
  }

  lemma TailStep(d: real, tail: real, from: real, p: real, x: real)
    requires Times(1.0 - d, tail) == Times(from - p, x)
    ensures Times(1.0 - d, tail + Times(p, x)) == Times(from - Times(d, p), x)
  {
  }

  lemma OneIterationFurther(f: seq<real> -> seq<real>, c: real, s: seq<real>, k: nat, m: nat)
    requires Contracts(f, |s|, c)
    ensures |Iter(f, s, k)| == |Iter(f, s, k + m)| == |Iter(f, s, k + m + 1)| == |f(s)| == |s|
    ensures Distance(Iter(f, s, k), Iter(f, s, k + m + 1))
         <= Distance(Iter(f, s, k), Iter(f, s, k + m)) + Times(Pow(c, k + m), Distance(s, f(s)))
  {
    IterLength(f, c, s, k);
    SuccessiveIterates(f, c, s, k + m);
    DistanceTriangle(Iter(f, s, k), Iter(f, s, k + m), Iter(f, s, k + m + 1));
  }

  lemma {:induction false} DistanceWithinTail(f: seq<real> -> seq<real>, c: real, s: seq<real>, k: nat, m: nat)
    requires Contracts(f, |s|, c)
    ensures |Iter(f, s, k)| == |Iter(f, s, k + m)| == |f(s)| == |s|
    ensures Distance(Iter(f, s, k), Iter(f, s, k + m)) <= Tail(c, k, m, Distance(s, f(s)))
  {
    if m == 0 {
      IterLength(f, c, s, k);
      DistanceToSelf(Iter(f, s, k));
    } else {
      DistanceWithinTail(f, c, s, k, m - 1);
      OneIterationFurther(f, c, s, k, m - 1);
    }
  }

  lemma StoppingError(f: seq<real> -> seq<real>, c: real, s: seq<real>, k: nat, m: nat)
    requires c <= 1.0 && Contracts(f, |s|, c)
    ensures |Iter(f, s, k)| == |Iter(f, s, k + m)| == |f(s)| == |s|
    ensures Times(1.0 - c, Distance(Iter(f, s, k), Iter(f, s, k + m)))
         <= Times(Pow(c, k) - Pow(c, k + m), Distance(s, f(s)))
  {
    DistanceWithinTail(f, c, s, k, m);
    TimesMonotone(1.0 - c, Distance(Iter(f, s, k), Iter(f, s, k + m)), Tail(c, k, m, Distance(s, f(s))));
    TailIsGeometric(c, k, m, Distance(s, f(s)));
  }
}
