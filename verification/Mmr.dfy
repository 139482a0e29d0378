/** Greedy maximal-marginal-relevance ranking (mmr.rs). */
module Mmr {
  import opened Wrappers
  import opened Pages
  import opened Sets
  import opened Sums

  // The ranking theory works on a relevance per unit and a similarity per pair
  // of units; `MmrRank` instantiates both with the cosine. Square roots come in
  // as a parameter obeying `IsSqrt`, and `weight` is the source's lambda.

  // ------------------------------------------------------------------- cosine

  ghost predicate IsSqrt(sqrt: real -> real) {
    forall x: real :: x >= 0.0 ==> sqrt(x) >= 0.0 && Times(sqrt(x), sqrt(x)) == x
  }

  function Dot(a: seq<real>, b: seq<real>): real
    requires |a| == |b|
  {
    if |a| == 0 then 0.0 else Dot(a[..|a| - 1], b[..|b| - 1]) + Times(a[|a| - 1], b[|b| - 1])
  }

  lemma SquareNonNegative(x: real)
    ensures Times(x, x) >= 0.0
  {
  }

  lemma {:induction false} DotSelfNonNegative(a: seq<real>)
    ensures Dot(a, a) >= 0.0
  {
    if |a| > 0 {
      DotSelfNonNegative(a[..|a| - 1]);
      SquareNonNegative(a[|a| - 1]);
    }
  }

  lemma {:induction false} DotSymmetric(a: seq<real>, b: seq<real>)
    requires |a| == |b|
    ensures Dot(a, b) == Dot(b, a)
  {
    if |a| > 0 { DotSymmetric(a[..|a| - 1], b[..|b| - 1]); }
  }

  lemma ProductPositive(x: real, y: real)
    requires x > 0.0 && y > 0.0
    ensures Times(x, y) > 0.0
  {
  }

  function Quotient(x: real, y: real): real
    requires y > 0.0
  {
    x / y
  }

  /** 0 for a zero vector or a length mismatch, else the cosine of the angle. */
  function Cosine(sqrt: real -> real, a: seq<real>, b: seq<real>): real
    requires IsSqrt(sqrt)
  {
    if |a| != |b| || Dot(a, a) == 0.0 || Dot(b, b) == 0.0 then 0.0
    else
      DotSelfNonNegative(a); DotSelfNonNegative(b);
      ProductPositive(sqrt(Dot(a, a)), sqrt(Dot(b, b)));
      Quotient(Dot(a, b), Times(sqrt(Dot(a, a)), sqrt(Dot(b, b))))
  }

  lemma SquareMonotone(x: real, y: real)
    requires Times(x, x) <= Times(y, y) && y >= 0.0
    ensures -y <= x <= y
  {
    if x > y { ProductPositive(x - y, x + y); }
    if x < -y { ProductPositive(-x - y, y - x); }
  }

  lemma Completed(a: real, b: real, d: real, x: real, y: real)
    ensures (a * y * y + b * x * x) * (a * y * y + b * x * x) - (2.0 * d * x * y) * (2.0 * d * x * y)
         == (a * y * y - b * x * x) * (a * y * y - b * x * x) + 4.0 * ((a * b - d * d) * ((x * y) * (x * y)))
  {
  }

  lemma ProductNonNegative(x: real, y: real)
    requires x >= 0.0 && y >= 0.0
    ensures Times(x, y) >= 0.0
  {
  }

  lemma CrossTerm(a: real, b: real, d: real, x: real, y: real)
    requires a >= 0.0 && b >= 0.0 && Times(d, d) <= Times(a, b)
    ensures 2.0 * d * x * y <= a * y * y + b * x * x
  {
    var u, v := a * y * y + b * x * x, 2.0 * d * x * y;
    SquareNonNegative(x);
    SquareNonNegative(y);
    ProductNonNegative(a, Times(y, y));
    ProductNonNegative(b, Times(x, x));
    assert u == Times(a, Times(y, y)) + Times(b, Times(x, x));
    Completed(a, b, d, x, y);
    SquareNonNegative(a * y * y - b * x * x);
    SquareNonNegative(x * y);
    ProductNonNegative(a * b - d * d, Times(x * y, x * y));
    SquareMonotone(v, u);
  }

  // One more coordinate keeps the square of the dot product within the product of the squares.
  lemma OneMoreCoordinate(a: real, b: real, d: real, x: real, y: real)
    requires a >= 0.0 && b >= 0.0 && Times(d, d) <= Times(a, b)
    ensures Times(d + Times(x, y), d + Times(x, y)) <= Times(a + Times(x, x), b + Times(y, y))
  {
    CrossTerm(a, b, d, x, y);
    assert (d + x * y) * (d + x * y) == d * d + 2.0 * d * x * y + x * y * x * y;
    assert (a + x * x) * (b + y * y) == a * b + (a * y * y + b * x * x) + x * y * x * y;
  }

  lemma {:induction false} DotSquared(a: seq<real>, b: seq<real>)
    requires |a| == |b|
    ensures Times(Dot(a, b), Dot(a, b)) <= Times(Dot(a, a), Dot(b, b))
  {
    if |a| > 0 {
      var k := |a| - 1;
      DotSquared(a[..k], b[..k]);
      DotSelfNonNegative(a[..k]);
      DotSelfNonNegative(b[..k]);
      OneMoreCoordinate(Dot(a[..k], a[..k]), Dot(b[..k], b[..k]), Dot(a[..k], b[..k]), a[k], b[k]);
    }
  }

  lemma RootsMultiply(p: real, q: real, a: real, b: real)
    requires a >= 0.0 && b >= 0.0 && Times(a, a) == p && Times(b, b) == q
    ensures Times(a, b) >= 0.0 && Times(Times(a, b), Times(a, b)) == Times(p, q)
  {
    ProductNonNegative(a, b);
    assert (a * b) * (a * b) == (a * a) * (b * b);
  }

  /** The Cauchy-Schwarz inequality. */
  lemma CauchySchwarz(sqrt: real -> real, a: seq<real>, b: seq<real>)
    requires IsSqrt(sqrt) && |a| == |b|
    ensures var r := Times(sqrt(Dot(a, a)), sqrt(Dot(b, b))); -r <= Dot(a, b) <= r
  {
    DotSelfNonNegative(a);
    DotSelfNonNegative(b);
    DotSquared(a, b);
    var p, q := sqrt(Dot(a, a)), sqrt(Dot(b, b));
    assert Times(p, p) == Dot(a, a) && Times(q, q) == Dot(b, b);
    RootsMultiply(Dot(a, a), Dot(b, b), p, q);
    SquareMonotone(Dot(a, b), Times(p, q));
  }

  lemma QuotientBounded(x: real, y: real)
    requires y > 0.0 && -y <= x <= y
    ensures -1.0 <= Quotient(x, y) <= 1.0
  {
  }

  lemma QuotientOfSelf(x: real)
    requires x > 0.0
    ensures Quotient(x, x) == 1.0
  {
  }

  /** Every similarity lies in [-1, 1] and does not depend on the order of its arguments. */
  lemma CosineBounded(sqrt: real -> real, a: seq<real>, b: seq<real>)
    requires IsSqrt(sqrt)
    ensures -1.0 <= Cosine(sqrt, a, b) <= 1.0
    ensures Cosine(sqrt, a, b) == Cosine(sqrt, b, a)
  {
    if |a| == |b| && Dot(a, a) != 0.0 && Dot(b, b) != 0.0 {
      CauchySchwarz(sqrt, a, b);
      DotSelfNonNegative(a);
      DotSelfNonNegative(b);
      ProductPositive(sqrt(Dot(a, a)), sqrt(Dot(b, b)));
      QuotientBounded(Dot(a, b), Times(sqrt(Dot(a, a)), sqrt(Dot(b, b))));
      DotSymmetric(a, b);
      assert Times(sqrt(Dot(a, a)), sqrt(Dot(b, b))) == Times(sqrt(Dot(b, b)), sqrt(Dot(a, a)));
    }
  }

  /** A nonzero vector is as similar to itself as can be. */
  lemma CosineWithSelf(sqrt: real -> real, a: seq<real>)
    requires IsSqrt(sqrt) && Dot(a, a) != 0.0
    ensures Cosine(sqrt, a, a) == 1.0
  {
    DotSelfNonNegative(a);
    assert Times(sqrt(Dot(a, a)), sqrt(Dot(a, a))) == Dot(a, a);
    QuotientOfSelf(Dot(a, a));
  }

  /** The products of two vectors' coordinates. */
  function Products(a: seq<real>, b: seq<real>): (p: seq<real>)
    requires |a| == |b|
    ensures |p| == |a| && forall i :: 0 <= i < |a| ==> p[i] == Times(a[i], b[i])
  {
    seq(|a|, i requires 0 <= i < |a| => Times(a[i], b[i]))
  }

  lemma {:induction false} DotIsSum(a: seq<real>, b: seq<real>)
    requires |a| == |b|
    ensures Dot(a, b) == Sum(Products(a, b))
  {
    if |a| > 0 {
      var k := |a| - 1;
      DotIsSum(a[..k], b[..k]);
      assert Products(a, b)[..k] == Products(a[..k], b[..k]);
    }
  }

  /** Times the lengths of two nonzero vectors the cosine is their inner product. */
  ghost predicate IsCosine(sqrt: real -> real, a: seq<real>, b: seq<real>, c: real) {
    if |a| != |b| || Sum(Products(a, a)) == 0.0 || Sum(Products(b, b)) == 0.0 then c == 0.0
    else c * (sqrt(Sum(Products(a, a))) * sqrt(Sum(Products(b, b)))) == Sum(Products(a, b))
  }

  lemma QuotientTimes(x: real, y: real)
    requires y > 0.0
    ensures Quotient(x, y) * y == x
  {
  }

  lemma CosineMeans(sqrt: real -> real, a: seq<real>, b: seq<real>)
    requires IsSqrt(sqrt)
    ensures IsCosine(sqrt, a, b, Cosine(sqrt, a, b))
  {
    if |a| == |b| {
      DotIsSum(a, a);
      DotIsSum(b, b);
      DotIsSum(a, b);
      if Dot(a, a) != 0.0 && Dot(b, b) != 0.0 {
        DotSelfNonNegative(a);
        DotSelfNonNegative(b);
        ProductPositive(sqrt(Dot(a, a)), sqrt(Dot(b, b)));
        QuotientTimes(Dot(a, b), Times(sqrt(Dot(a, a)), sqrt(Dot(b, b))));
      }
    }
  }

  method ComputeCosine(sqrt: real -> real, a: seq<real>, b: seq<real>) returns (c: real)
    requires IsSqrt(sqrt)
    ensures c == Cosine(sqrt, a, b) && IsCosine(sqrt, a, b, c)
  {
    CosineMeans(sqrt, a, b);
    if |a| != |b| { return 0.0; }
    var dot, na, nb := 0.0, 0.0, 0.0;
    for i := 0 to |a|
      invariant dot == Dot(a[..i], b[..i]) && na == Dot(a[..i], a[..i]) && nb == Dot(b[..i], b[..i])
    {
      assert a[..i + 1][..i] == a[..i] && b[..i + 1][..i] == b[..i];
      dot := dot + Times(a[i], b[i]);
      na := na + Times(a[i], a[i]);
      nb := nb + Times(b[i], b[i]);
    }
    assert a[..|a|] == a && b[..|b|] == b;
    if na == 0.0 || nb == 0.0 { return 0.0; }
    DotSelfNonNegative(a);
    DotSelfNonNegative(b);
    ProductPositive(sqrt(na), sqrt(nb));
    return Quotient(dot, Times(sqrt(na), sqrt(nb)));
  }

  // ------------------------------------------------------------------ ranking

  function Max(x: real, y: real): real { if x < y then y else x }

  /** Largest similarity of unit `i` to a picked one, and never below 0. */
  function Redundancy(sim: (nat, nat) -> real, i: nat, picked: seq<nat>): real {
    if |picked| == 0 then 0.0
    else Max(Redundancy(sim, i, picked[..|picked| - 1]), sim(i, picked[|picked| - 1]))
  }

  function Score(rel: seq<real>, sim: (nat, nat) -> real, weight: real, picked: seq<nat>, i: nat): real
    requires i < |rel|
  {
    Times(weight, rel[i]) - Times(1.0 - weight, Redundancy(sim, i, picked))
  }

  /** `m` is the largest similarity of unit `i` to a picked one, or 0 if none is above it. */
  ghost predicate IsMaxSim(sim: (nat, nat) -> real, i: nat, picked: seq<nat>, m: real) {
    && m >= 0.0 && (forall p :: p in picked ==> sim(i, p) <= m)
    && (m == 0.0 || exists p :: p in picked && sim(i, p) == m)
  }

  lemma {:induction false} RedundancyIsMax(sim: (nat, nat) -> real, i: nat, picked: seq<nat>)
    ensures IsMaxSim(sim, i, picked, Redundancy(sim, i, picked))
  {
    if |picked| > 0 {
      var init, last := picked[..|picked| - 1], picked[|picked| - 1];
      RedundancyIsMax(sim, i, init);
      assert forall p :: p in picked <==> p in init || p == last;
    }
  }

  /** Relevance and redundancy weighed against each other, `m` being the redundancy. */
  ghost predicate Beats(rel: seq<real>, weight: real, i: nat, mi: real, j: nat, mj: real)
    requires i < |rel| && j < |rel|
  {
    var si, sj := weight * rel[i] - (1.0 - weight) * mi, weight * rel[j] - (1.0 - weight) * mj;
    sj < si || (sj == si && i <= j)
  }

  /** No unit left scores higher than the one picked, and none before it as high. */
  ghost predicate IsBest(rel: seq<real>, sim: (nat, nat) -> real, weight: real, picked: seq<nat>, i: nat) {
    && i < |rel| && i !in picked
    && forall j: nat, mi: real, mj: real ::
         j < |rel| && j !in picked && IsMaxSim(sim, i, picked, mi) && IsMaxSim(sim, j, picked, mj) ==>
           Beats(rel, weight, i, mi, j, mj)
  }

  lemma PickIsBest(rel: seq<real>, sim: (nat, nat) -> real, weight: real, picked: seq<nat>, i: nat)
    requires IsPick(rel, sim, weight, picked, i)
    ensures IsBest(rel, sim, weight, picked, i)
  {
    forall j: nat, mi: real, mj: real
      | j < |rel| && j !in picked && IsMaxSim(sim, i, picked, mi) && IsMaxSim(sim, j, picked, mj)
      ensures Beats(rel, weight, i, mi, j, mj)
    {
      RedundancyIsMax(sim, i, picked);
      RedundancyIsMax(sim, j, picked);
      OneMaxSim(sim, i, picked, mi, Redundancy(sim, i, picked));
      OneMaxSim(sim, j, picked, mj, Redundancy(sim, j, picked));
    }
  }

  lemma OneMaxSim(sim: (nat, nat) -> real, i: nat, picked: seq<nat>, m: real, n: real)
    requires IsMaxSim(sim, i, picked, m) && IsMaxSim(sim, i, picked, n)
    ensures m == n
  {
  }

  /** `i` is the lowest-index maximiser of the score among the units not picked yet. */
  ghost predicate IsPick(rel: seq<real>, sim: (nat, nat) -> real, weight: real, picked: seq<nat>, i: nat) {
    && i < |rel| && i !in picked
    && (forall j: nat :: j < |rel| && j !in picked ==>
          var si, sj := Score(rel, sim, weight, picked, i), Score(rel, sim, weight, picked, j);
          sj < si || (sj == si && i <= j))
  }

  ghost predicate ArePicks(rel: seq<real>, sim: (nat, nat) -> real, weight: real, order: seq<nat>) {
    forall k :: 0 <= k < |order| ==> IsPick(rel, sim, weight, order[..k], order[k])
  }

  ghost predicate IsRanking(rel: seq<real>, sim: (nat, nat) -> real, weight: real, order: seq<nat>) {
    |order| == |rel| && ArePicks(rel, sim, weight, order)
  }

  function Below(n: nat): (s: set<nat>)
    ensures forall i: nat :: i in s <==> i < n
    ensures |s| == n
  {
    if n == 0 then {} else Below(n - 1) + {n - 1}
  }

  lemma {:induction false} DistinctSize(s: seq<nat>)
    requires Distinct(s)
    ensures |ToSet(s)| == |s|
  {
    if |s| > 0 {
      var k := |s| - 1;
      DistinctSize(s[..k]);
      assert s == s[..k] + [s[k]];
      assert s[k] !in s[..k];
      assert ToSet(s) == ToSet(s[..k]) + {s[k]};
    }
  }

  /** A ranking holds every unit exactly once. */
  lemma RankingIsPermutation(rel: seq<real>, sim: (nat, nat) -> real, weight: real, order: seq<nat>)
    requires IsRanking(rel, sim, weight, order)
    ensures Distinct(order) && forall i: nat :: i in order <==> i < |rel|
  {
    DistinctSize(order);
    SubsetFills(ToSet(order), Below(|rel|));
    forall i: nat ensures i in order <==> i < |rel| {
      assert i in ToSet(order) <==> i in Below(|rel|);
    }
  }

  lemma {:induction false} RankingsAgree(rel: seq<real>, sim: (nat, nat) -> real, weight: real, a: seq<nat>,
                                         b: seq<nat>, n: nat)
    requires IsRanking(rel, sim, weight, a) && IsRanking(rel, sim, weight, b) && n <= |a|
    ensures a[..n] == b[..n]
  {
    if n > 0 {
      RankingsAgree(rel, sim, weight, a, b, n - 1);
      assert IsPick(rel, sim, weight, a[..n - 1], a[n - 1]) && IsPick(rel, sim, weight, b[..n - 1], b[n - 1]);
      assert a[..n] == a[..n - 1] + [a[n - 1]] && b[..n] == b[..n - 1] + [b[n - 1]];
    }
  }

  /** The same units and weight always give the same ranking. */
  lemma RankingUnique(rel: seq<real>, sim: (nat, nat) -> real, weight: real, a: seq<nat>, b: seq<nat>)
    requires IsRanking(rel, sim, weight, a) && IsRanking(rel, sim, weight, b)
    ensures a == b
  {
    RankingsAgree(rel, sim, weight, a, b, |a|);
    assert a[..|a|] == a && b[..|a|] == b;
  }

  lemma PickingMoreCostsScore(rel: seq<real>, sim: (nat, nat) -> real, weight: real, picked: seq<nat>, p: nat, i: nat)
    requires i < |rel| && weight <= 1.0
    ensures Score(rel, sim, weight, picked + [p], i) <= Score(rel, sim, weight, picked, i)
  {
    assert (picked + [p])[..|picked|] == picked;
    TimesMonotone(1.0 - weight, Redundancy(sim, i, picked), Redundancy(sim, i, picked + [p]));
  }

  /** With weight at most 1 the picked scores never increase along the ranking. */
  lemma {:induction false} PickedScoresDescend(rel: seq<real>, sim: (nat, nat) -> real, weight: real, order: seq<nat>,
                                               j: nat, k: nat)
    requires weight <= 1.0 && ArePicks(rel, sim, weight, order) && j <= k < |order|
    ensures order[j] < |rel| && order[k] < |rel|
    ensures Score(rel, sim, weight, order[..k], order[k]) <= Score(rel, sim, weight, order[..j], order[j])
    decreases k - j
  {
    assert IsPick(rel, sim, weight, order[..k], order[k]) && IsPick(rel, sim, weight, order[..j], order[j]);
    if j < k {
      PickedScoresDescend(rel, sim, weight, order, j, k - 1);
      assert IsPick(rel, sim, weight, order[..k - 1], order[k - 1]);
      assert order[k] !in order[..k - 1];
      assert order[..k] == order[..k - 1] + [order[k - 1]];
      PickingMoreCostsScore(rel, sim, weight, order[..k - 1], order[k - 1], order[k]);
    }
  }

  /** At weight 1 (the lambda of mmr.rs) the ranking is the stable descending sort by relevance. */
  lemma LambdaOneSortsByRelevance(rel: seq<real>, sim: (nat, nat) -> real, order: seq<nat>, j: nat, k: nat)
    requires ArePicks(rel, sim, 1.0, order) && j < k < |order|
    ensures order[j] < |rel| && order[k] < |rel|
    ensures rel[order[k]] < rel[order[j]] || (rel[order[k]] == rel[order[j]] && order[j] < order[k])
  {
    assert IsPick(rel, sim, 1.0, order[..j], order[j]);
    assert order[k] !in order[..j];
  }

  // ----------------------------------------------------------------- mmr_rank

  /** `remaining` holds, in index order, the units not selected. */
  ghost predicate Partition(n: nat, selected: seq<nat>, remaining: seq<nat>) {
    && Ascending(IntOrder(), remaining) && |selected| + |remaining| == n
    && (forall i: nat :: i in remaining <==> i < n && i !in selected)
  }

  /** How similar units `i` and `j` are. */
  ghost function SimilarityOf(sqrt: real -> real, units: seq<seq<real>>): (nat, nat) -> real
    requires IsSqrt(sqrt)
  {
    (i: nat, j: nat) => if i < |units| && j < |units| && IsSqrt(sqrt) then Cosine(sqrt, units[i], units[j]) else 0.0
  }

  /** How similar each unit is to the centroid. */
  ghost function RelevanceOf(sqrt: real -> real, units: seq<seq<real>>, centroid: seq<real>): (rel: seq<real>)
    requires IsSqrt(sqrt)
    ensures |rel| == |units| && forall i :: 0 <= i < |units| ==> rel[i] == Cosine(sqrt, units[i], centroid)
  {
    seq(|units|, i requires 0 <= i < |units| && IsSqrt(sqrt) => Cosine(sqrt, units[i], centroid))
  }

  method MaxSimilarity(sqrt: real -> real, units: seq<seq<real>>, idx: nat, selected: seq<nat>)
    returns (m: real)
    requires IsSqrt(sqrt) && idx < |units| && forall k :: 0 <= k < |selected| ==> selected[k] < |units|
    ensures m == Redundancy(SimilarityOf(sqrt, units), idx, selected)
  {
    ghost var sim := SimilarityOf(sqrt, units);
    m := 0.0;
    for k := 0 to |selected|
      invariant m == Redundancy(sim, idx, selected[..k])
    {
      assert selected[..k + 1][..k] == selected[..k];
      var c := ComputeCosine(sqrt, units[idx], units[selected[k]]);
      m := Max(m, c);
    }
    assert selected[..|selected|] == selected;
  }

  /** The position in `remaining` of the next pick. */
  method BestPosition(sqrt: real -> real, units: seq<seq<real>>, relevance: seq<real>, weight: real,
                      selected: seq<nat>, remaining: seq<nat>)
    returns (bestPos: nat)
    requires IsSqrt(sqrt) && |relevance| == |units| && remaining != []
    requires Partition(|units|, selected, remaining) && forall k :: 0 <= k < |selected| ==> selected[k] < |units|
    ensures bestPos < |remaining| && IsPick(relevance, SimilarityOf(sqrt, units), weight, selected, remaining[bestPos])
  {
    bestPos := 0;
    ghost var sim := SimilarityOf(sqrt, units);
    var bestScore: Option<real> := None;
    for pos := 0 to |remaining|
      invariant bestScore.None? <==> pos == 0
      invariant pos > 0 ==> bestPos < pos && remaining[bestPos] < |units|
      invariant pos > 0 ==> bestScore.value == Score(relevance, sim, weight, selected, remaining[bestPos])
      invariant forall q :: 0 <= q < pos ==> remaining[q] < |units|
      invariant forall q :: 0 <= q < pos ==>
                  var s := Score(relevance, sim, weight, selected, remaining[q]);
                  s < bestScore.value || (s == bestScore.value && bestPos <= q)
    {
      var idx := remaining[pos];
      assert idx in remaining;
      var maxSim := MaxSimilarity(sqrt, units, idx, selected);
      var score := Times(weight, relevance[idx]) - Times(1.0 - weight, maxSim);
      if bestScore.None? || score > bestScore.value {
        bestScore := Some(score);
        bestPos := pos;
      }
    }
    forall j: nat | j < |units| && j !in selected
      ensures var si, sj := bestScore.value, Score(relevance, sim, weight, selected, j);
              sj < si || (sj == si && remaining[bestPos] <= j)
    {
      assert j in remaining;
      var q :| 0 <= q < |remaining| && remaining[q] == j;
    }
    assert remaining[bestPos] in remaining;
  }

  lemma RemovedPartition(n: nat, selected: seq<nat>, remaining: seq<nat>, pos: nat)
    requires Partition(n, selected, remaining) && pos < |remaining|
    ensures Partition(n, selected + [remaining[pos]], remaining[..pos] + remaining[pos + 1..])
  {
    var rest := remaining[..pos] + remaining[pos + 1..];
    forall i: nat ensures i in rest <==> i in remaining && i != remaining[pos] {
      if i in remaining && i != remaining[pos] {
        var q :| 0 <= q < |remaining| && remaining[q] == i;
        assert rest[if q < pos then q else q - 1] == i;
      }
    }
  }

  /** Every unit index in selection order. */
  /** Relevance and similarities are cosines, and each pick is the best of what is left. */
  ghost predicate IsGreedyBy(sqrt: real -> real, units: seq<seq<real>>, centroid: seq<real>, weight: real,
                             order: seq<nat>, rel: seq<real>, sim: (nat, nat) -> real)
  {
    && |rel| == |units|
    && (forall i :: 0 <= i < |units| ==> IsCosine(sqrt, units[i], centroid, rel[i]))
    && (forall i: nat, j: nat :: i < |units| && j < |units| ==> IsCosine(sqrt, units[i], units[j], sim(i, j)))
    && (forall k :: 0 <= k < |order| ==> IsBest(rel, sim, weight, order[..k], order[k]))
  }

  /** A ranking told from the vectors: cosines to the centroid weighed against cosines to what is ranked before. */
  ghost predicate IsGreedyRanking(sqrt: real -> real, units: seq<seq<real>>, centroid: seq<real>, weight: real,
                                  order: seq<nat>)
  {
    |order| == |units| && exists rel, sim :: IsGreedyBy(sqrt, units, centroid, weight, order, rel, sim)
  }

  lemma RankingIsGreedy(sqrt: real -> real, units: seq<seq<real>>, centroid: seq<real>, weight: real, order: seq<nat>)
    requires IsSqrt(sqrt)
    requires IsRanking(RelevanceOf(sqrt, units, centroid), SimilarityOf(sqrt, units), weight, order)
    ensures IsGreedyRanking(sqrt, units, centroid, weight, order)
  {
    var rel, sim := RelevanceOf(sqrt, units, centroid), SimilarityOf(sqrt, units);
    forall i | 0 <= i < |units| ensures IsCosine(sqrt, units[i], centroid, rel[i]) {
      CosineMeans(sqrt, units[i], centroid);
    }
    forall i: nat, j: nat | i < |units| && j < |units| ensures IsCosine(sqrt, units[i], units[j], sim(i, j)) {
      CosineMeans(sqrt, units[i], units[j]);
    }
    forall k | 0 <= k < |order| ensures IsBest(rel, sim, weight, order[..k], order[k]) {
      PickIsBest(rel, sim, weight, order[..k], order[k]);
    }
    assert IsGreedyBy(sqrt, units, centroid, weight, order, rel, sim);
  }

  method MmrRank(sqrt: real -> real, unitVectors: seq<seq<real>>, centroid: seq<real>, weight: real)
    returns (selected: seq<nat>)
    requires IsSqrt(sqrt)
    ensures IsRanking(RelevanceOf(sqrt, unitVectors, centroid), SimilarityOf(sqrt, unitVectors), weight, selected)
    ensures IsGreedyRanking(sqrt, unitVectors, centroid, weight, selected)
  {
    var n := |unitVectors|;
    ghost var sim := SimilarityOf(sqrt, unitVectors);
    var scores: seq<real> := [];
    for i := 0 to n
      invariant |scores| == i && forall k :: 0 <= k < i ==> scores[k] == Cosine(sqrt, unitVectors[k], centroid)
    {
      var c := ComputeCosine(sqrt, unitVectors[i], centroid);
      scores := scores + [c];
    }
    assert scores == RelevanceOf(sqrt, unitVectors, centroid);
    selected := [];
    var remaining: seq<nat> := seq(n, i requires 0 <= i < n => i);
    forall i: nat ensures i in remaining <==> i < n {
      if i < n { assert remaining[i] == i; }
    }
    while |remaining| > 0
      invariant Partition(n, selected, remaining) && ArePicks(scores, sim, weight, selected)
      decreases |remaining|
    {
      var bestPos := BestPosition(sqrt, unitVectors, scores, weight, selected, remaining);
      RemovedPartition(n, selected, remaining, bestPos);
      ghost var before := selected;
      selected := selected + [remaining[bestPos]];
      assert forall k :: 0 <= k < |before| ==> selected[..k] == before[..k] && selected[k] == before[k];
      assert selected[..|before|] == before;
      remaining := remaining[..bestPos] + remaining[bestPos + 1..];
    }
    RankingIsGreedy(sqrt, unitVectors, centroid, weight, selected);
  }
}
