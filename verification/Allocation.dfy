/**
 Proportional layer allocation (src/orchestrator.rs, `rebalance_layers`), in exact arithmetic: where each
 node's slice ends, given the composite scores of the nodes in order.
 */
module Allocation {
  import opened Wrappers

  /** Rounds to the nearest integer, halves away from zero. */
  function Round(x: real): (n: int)
    ensures x >= 0.0 ==> n >= 0 && -0.5 <= x - n as real < 0.5
  {
    if x >= 0.0 then (x + 0.5).Floor else -((0.5 - x).Floor)
  }

  function Total(scores: seq<real>): real {
    if scores == [] then 0.0 else Total(scores[..|scores| - 1]) + scores[|scores| - 1]
  }

  predicate Scores(scores: seq<real>) {
    forall i :: 0 <= i < |scores| ==> 0.0 <= scores[i] <= 1.0
  }

  /** When no node has any capacity the layers are shared out equally. */
  predicate Fallback(scores: seq<real>) {
    Total(scores) <= 0.0
  }

  /** The part of `total` layers due to a score out of the sum of all scores. */
  function Proportion(score: real, sum: real, total: nat): real
    requires sum != 0.0
  {
    score / sum * total as real
  }

  /** The ideal share of node `i`, a real number of layers. */
  function IdealShare(scores: seq<real>, total: nat, i: nat): real
    requires i < |scores| && !Fallback(scores)
  {
    Proportion(scores[i], Total(scores), total)
  }

  /**
   The absolute layer at which the slice of the first `i` nodes ends. The last slice ends with the model; a
   negative rounded share, were there one, would count as zero.
   */
  function Boundary(scores: seq<real>, total: nat, i: nat): (b: nat)
    requires i <= |scores|
    ensures b <= total
  {
    if i == 0 then 0
    else if i == |scores| then total
    else if Fallback(scores) then FallbackBoundary(|scores|, total, i)
    else Min(Boundary(scores, total, i - 1) + Max(Round(IdealShare(scores, total, i - 1)), 0), total)
  }

  function FallbackBoundary(n: nat, total: nat, i: nat): (b: nat)
    requires 0 < n && i <= n
    ensures b <= total
  {
    Multiples(i, n, total / n);
    i * (total / n)
  }

  lemma Multiples(i: nat, n: nat, q: nat)
    requires i <= n
    ensures i * q <= n * q
  {
  }

  /** How many layers node `i` gets. */
  function Count(scores: seq<real>, total: nat, i: nat): int
    requires i < |scores|
  {
    Boundary(scores, total, i + 1) - Boundary(scores, total, i)
  }

  // ---------------------------------------------------------------- totals and shares

  lemma {:induction false} TotalBounds(scores: seq<real>, i: nat)
    requires Scores(scores) && i < |scores|
    ensures 0.0 <= scores[i] <= Total(scores)
  {
    var last := |scores| - 1;
    if i < last {
      TotalBounds(scores[..last], i);
    } else if last > 0 {
      TotalBounds(scores[..last], 0);
    }
  }

  lemma ShareNonNegative(scores: seq<real>, total: nat, i: nat)
    requires Scores(scores) && i < |scores| && !Fallback(scores)
    ensures 0.0 <= IdealShare(scores, total, i) <= total as real
  {
    TotalBounds(scores, i);
    Fraction(scores[i], Total(scores));
    var fraction := scores[i] / Total(scores);
    Scaled(fraction, total as real);
    assert IdealShare(scores, total, i) == fraction * total as real;
  }

  /** Before clamping, a slice ends at most at twice the number of layers. */
  lemma EndBeforeClamping(scores: seq<real>, total: nat, i: nat)
    requires Scores(scores) && i < |scores| && !Fallback(scores)
    ensures 0 <= Boundary(scores, total, i) + Round(IdealShare(scores, total, i)) <= 2 * total
  {
    ShareNonNegative(scores, total, i);
  }

  lemma Fraction(x: real, d: real)
    requires 0.0 <= x <= d && d > 0.0
    ensures 0.0 <= x / d <= 1.0
  {
    QuotientMonotone(0.0, x, d);
    QuotientMonotone(x, d, d);
    assert d / d == 1.0;
  }

  lemma Scaled(f: real, t: real)
    requires 0.0 <= f <= 1.0 && t >= 0.0
    ensures 0.0 <= f * t <= t
  {
    assert f * t <= 1.0 * t;
  }

  /** The ideal boundary: the exact shares of the first `i` nodes together. */
  function IdealBoundary(scores: seq<real>, total: nat, i: nat): real
    requires i <= |scores| && !Fallback(scores)
  {
    if i == 0 then 0.0 else IdealBoundary(scores, total, i - 1) + IdealShare(scores, total, i - 1)
  }

  lemma {:induction false} IdealBoundaryIsPartial(scores: seq<real>, total: nat, i: nat)
    requires i <= |scores| && !Fallback(scores)
    ensures IdealBoundary(scores, total, i) == Total(scores[..i]) / Total(scores) * total as real
  {
    if i > 0 {
      IdealBoundaryIsPartial(scores, total, i - 1);
      assert scores[..i][..i - 1] == scores[..i - 1];
      Distribute(Total(scores[..i - 1]), scores[i - 1], Total(scores), total as real);
    }
  }

  lemma Distribute(x: real, y: real, d: real, t: real)
    requires d > 0.0
    ensures (x + y) / d * t == x / d * t + y / d * t
  {
    assert (x + y) / d == x / d + y / d;
  }

  lemma {:induction false} PartialTotal(scores: seq<real>, i: nat)
    requires Scores(scores) && i <= |scores|
    ensures 0.0 <= Total(scores[..i]) <= Total(scores)
  {
    if i < |scores| {
      var front := scores[..|scores| - 1];
      PartialTotal(front, i);
      assert front[..i] == scores[..i];
    } else {
      assert scores[..i] == scores;
      TotalNonNegative(scores);
    }
  }

  lemma {:induction false} TotalNonNegative(scores: seq<real>)
    requires Scores(scores)
    ensures Total(scores) >= 0.0
  {
    if scores != [] {
      TotalNonNegative(scores[..|scores| - 1]);
    }
  }

  /** Ideal boundaries lie inside the model. */
  lemma IdealBoundaryBounds(scores: seq<real>, total: nat, i: nat)
    requires Scores(scores) && i <= |scores| && !Fallback(scores)
    ensures 0.0 <= IdealBoundary(scores, total, i) <= total as real
  {
    PartialTotal(scores, i);
    IdealBoundaryIsPartial(scores, total, i);
    var fraction := Total(scores[..i]) / Total(scores);
    Fraction(Total(scores[..i]), Total(scores));
    Scaled(fraction, total as real);
  }

  /** The last ideal boundary is the end of the model. */
  lemma IdealBoundaryEnd(scores: seq<real>, total: nat)
    requires !Fallback(scores)
    ensures IdealBoundary(scores, total, |scores|) == total as real
  {
    IdealBoundaryIsPartial(scores, total, |scores|);
    assert scores[..|scores|] == scores;
    WholeScaled(Total(scores), total as real);
  }

  lemma WholeScaled(d: real, t: real)
    requires d > 0.0
    ensures d / d * t == t
  {
  }

  // ---------------------------------------------------------------- slices tile the model

  /** Slices follow on from one another: boundaries never go back. */
  lemma BoundariesMonotone(scores: seq<real>, total: nat, i: nat)
    requires i < |scores|
    ensures Boundary(scores, total, i) <= Boundary(scores, total, i + 1)
    ensures Boundary(scores, total, 0) == 0 && Boundary(scores, total, |scores|) == total
  {
    if i + 1 < |scores| && Fallback(scores) {
      Multiples(i, i + 1, total / |scores|);
    }
  }

  // ---------------------------------------------------------------- error of rounding and clamping

  lemma RoundedStep(b: nat, ideal: real, share: real, total: nat, slack: real)
    requires share >= 0.0 && slack >= 0.0
    requires -slack <= b as real - ideal <= slack
    requires ideal + share <= total as real
    ensures -slack - 0.5 <= Min(b + Round(share), total) as real - (ideal + share) <= slack + 0.5
  {
  }

  /** Despite rounding and clamping, the i-th boundary is within i/2 layers of its ideal. */
  lemma {:induction false} BoundaryError(scores: seq<real>, total: nat, i: nat)
    requires Scores(scores) && !Fallback(scores) && i <= |scores|
    ensures var error := Boundary(scores, total, i) as real - IdealBoundary(scores, total, i);
            -(i as real / 2.0) <= error <= i as real / 2.0
  {
    if i == |scores| {
      IdealBoundaryEnd(scores, total);
    } else if i > 0 {
      BoundaryError(scores, total, i - 1);
      ShareNonNegative(scores, total, i - 1);
      IdealBoundaryBounds(scores, total, i);
      RoundedStep(Boundary(scores, total, i - 1), IdealBoundary(scores, total, i - 1),
                  IdealShare(scores, total, i - 1), total, (i - 1) as real / 2.0);
    }
  }

  /** The last node's count is within (n - 1)/2 layers of its ideal share. */
  lemma LastCountError(scores: seq<real>, total: nat)
    requires Scores(scores) && !Fallback(scores) && scores != []
    ensures var n := |scores|;
            var error := Count(scores, total, n - 1) as real - IdealShare(scores, total, n - 1);
            -((n - 1) as real / 2.0) <= error <= (n - 1) as real / 2.0
  {
    BoundaryError(scores, total, |scores| - 1);
    IdealBoundaryEnd(scores, total);
  }

  // ---------------------------------------------------------------- fairness

  predicate Descending(scores: seq<real>) {
    forall i, j :: 0 <= i <= j < |scores| ==> scores[i] >= scores[j]
  }

  lemma ShareMonotone(scores: seq<real>, total: nat, i: nat, j: nat)
    requires Scores(scores) && !Fallback(scores) && i < |scores| && j < |scores| && scores[i] >= scores[j]
    ensures IdealShare(scores, total, i) >= IdealShare(scores, total, j)
    ensures Round(IdealShare(scores, total, i)) >= Round(IdealShare(scores, total, j))
  {
    ShareNonNegative(scores, total, i);
    ShareNonNegative(scores, total, j);
    QuotientMonotone(scores[j], scores[i], Total(scores));
    ScaleMonotone(scores[j] / Total(scores), scores[i] / Total(scores), total as real);
  }

  lemma QuotientMonotone(x: real, y: real, d: real)
    requires x <= y && d > 0.0
    ensures x / d <= y / d
  {
  }

  lemma ScaleMonotone(x: real, y: real, t: real)
    requires x <= y && t >= 0.0
    ensures x * t <= y * t
  {
  }

  lemma {:induction false} BoundariesOrdered(scores: seq<real>, total: nat, i: nat, j: nat)
    requires i <= j <= |scores|
    ensures Boundary(scores, total, i) <= Boundary(scores, total, j)
    decreases j - i
  {
    if i < j {
      BoundariesOrdered(scores, total, i, j - 1);
      BoundariesMonotone(scores, total, j - 1);
    }
  }

  /** Outside the fallback, of two nodes before the last the one with the higher score never gets fewer layers. */
  lemma HigherScoreNoFewerLayers(scores: seq<real>, total: nat, i: nat, j: nat)
    requires Scores(scores) && Descending(scores) && !Fallback(scores) && i <= j < |scores| - 1
    ensures Count(scores, total, i) >= Count(scores, total, j)
  {
    ShareMonotone(scores, total, i, j);
    ShareNonNegative(scores, total, j);
    BoundariesOrdered(scores, total, i, j);
  }

  /** In the fallback all counts differ by less than the number of nodes, the last node taking the remainder. */
  lemma FallbackNearlyEqual(scores: seq<real>, total: nat, i: nat)
    requires Fallback(scores) && i < |scores|
    ensures Count(scores, total, i) == total / |scores| + (if i == |scores| - 1 then total % |scores| else 0)
    ensures 0 <= Count(scores, total, i) - total / |scores| < |scores|
  {
    var (n, q) := (|scores|, total / |scores|);
    assert (i + 1) * q == i * q + q;
    assert total == n * q + total % n;
    assert n * q == (n - 1) * q + q;
  }

  /**
   Of two nodes the first gets no fewer layers than the second, except when neither has any capacity and the
   number of layers is odd: then the second takes the remainder.
   */
  lemma FirstOfTwoNoFewer(scores: seq<real>, total: nat)
    requires Scores(scores) && Descending(scores) && |scores| == 2
    ensures Count(scores, total, 0) >= Count(scores, total, 1) <==> !Fallback(scores) || total % 2 == 0
  {
    if Fallback(scores) {
      FallbackNearlyEqual(scores, total, 0);
      FallbackNearlyEqual(scores, total, 1);
    } else {
      ShareMonotone(scores, total, 0, 1);
      ShareNonNegative(scores, total, 0);
      IdealBoundaryEnd(scores, total);
      assert IdealBoundary(scores, total, 1) == IdealShare(scores, total, 0);
      assert IdealShare(scores, total, 0) + IdealShare(scores, total, 1) == total as real;
    }
  }

  /** Of three layers and two nodes without capacity, the second gets two. */
  lemma SecondOfTwoGetsMore()
    ensures Count([0.0, 0.0], 3, 0) == 1 && Count([0.0, 0.0], 3, 1) == 2
  {
    var scores := [0.0, 0.0];
    assert scores[..1] == [0.0] && scores[..1][..0] == [];
    FallbackNearlyEqual(scores, 3, 0);
    FallbackNearlyEqual(scores, 3, 1);
  }

  // ---------------------------------------------------------------- when every node serves

  /** The rounded shares of the first `i` nodes together. */
  function RoundedTotal(scores: seq<real>, total: nat, i: nat): nat
    requires i <= |scores| && !Fallback(scores)
  {
    if i == 0 then 0
    else RoundedTotal(scores, total, i - 1) + Max(Round(IdealShare(scores, total, i - 1)), 0)
  }

  /** Clamping slice after slice is clamping once: before the last, a slice ends at the sum of the rounded shares. */
  lemma {:induction false} BoundaryIsRounded(scores: seq<real>, total: nat, i: nat)
    requires i < |scores| && !Fallback(scores)
    ensures Boundary(scores, total, i) == Min(RoundedTotal(scores, total, i), total)
  {
    if i > 0 {
      BoundaryIsRounded(scores, total, i - 1);
    }
  }

  /** The node is due half a layer or more. */
  predicate IsDue(scores: seq<real>, total: nat, i: nat)
    requires i < |scores| && !Fallback(scores)
  {
    IdealShare(scores, total, i) >= 0.5
  }

  /**
   The scores leave no node without layers: every node before the last is due at least half a layer, and
   together, rounded, those nodes do not use up the model. Without any capacity there must be a layer for each.
   */
  predicate LeavesNoneOut(scores: seq<real>, total: nat) {
    if Fallback(scores) then total >= |scores|
    else
      && (forall i :: 0 <= i < |scores| - 1 ==> IsDue(scores, total, i))
      && RoundedTotal(scores, total, |scores| - 1) < total
  }

  lemma {:induction false} RoundedTotalGrows(scores: seq<real>, total: nat, i: nat, j: nat)
    requires i <= j <= |scores| && !Fallback(scores)
    ensures RoundedTotal(scores, total, i) <= RoundedTotal(scores, total, j)
    decreases j - i
  {
    if i < j {
      RoundedTotalGrows(scores, total, i, j - 1);
    }
  }

  /** While the rounded shares leave room, a node before the last gets its own rounded share. */
  lemma CountWithRoom(scores: seq<real>, total: nat, i: nat)
    requires Scores(scores) && !Fallback(scores) && i < |scores| - 1
    requires RoundedTotal(scores, total, |scores| - 1) < total
    ensures Count(scores, total, i) == Round(IdealShare(scores, total, i))
    ensures Count(scores, total, i) > 0 <==> IdealShare(scores, total, i) >= 0.5
  {
    ShareNonNegative(scores, total, i);
    BoundaryIsRounded(scores, total, i);
    BoundaryIsRounded(scores, total, i + 1);
    RoundedTotalGrows(scores, total, i, |scores| - 1);
    RoundedTotalGrows(scores, total, i + 1, |scores| - 1);
  }

  predicate EveryCountPositive(scores: seq<real>, total: nat) {
    forall i :: 0 <= i < |scores| ==> Count(scores, total, i) > 0
  }

  lemma LastCount(scores: seq<real>, total: nat)
    requires scores != [] && !Fallback(scores)
    ensures Count(scores, total, |scores| - 1) > 0 <==> RoundedTotal(scores, total, |scores| - 1) < total
  {
    BoundaryIsRounded(scores, total, |scores| - 1);
  }

  /** Sharing out equally reaches everyone when there is a layer for each. */
  lemma EqualSharesReachAll(scores: seq<real>, total: nat)
    requires Fallback(scores) && scores != []
    ensures EveryCountPositive(scores, total) <==> total >= |scores|
  {
    var n := |scores|;
    EqualSharesPositive(total, n);
    FallbackNearlyEqual(scores, total, 0);
    FallbackNearlyEqual(scores, total, n - 1);
    if total >= n {
      forall i | 0 <= i < n
        ensures Count(scores, total, i) > 0
      {
        FallbackNearlyEqual(scores, total, i);
      }
    } else if n > 1 {
      assert Count(scores, total, 0) == 0;
    }
  }

  lemma RoomForOne(scores: seq<real>, total: nat, last: nat, i: nat)
    requires Scores(scores) && i < last && last + 1 == |scores| && !Fallback(scores)
    requires RoundedTotal(scores, total, last) < total
    ensures Count(scores, total, i) > 0 <==> IsDue(scores, total, i)
  {
    CountWithRoom(scores, total, i);
  }

  lemma RoomReachesAll(scores: seq<real>, total: nat, last: nat)
    requires Scores(scores) && last + 1 == |scores| && !Fallback(scores)
    requires RoundedTotal(scores, total, last) < total && Count(scores, total, last) > 0
    ensures EveryCountPositive(scores, total) <==> forall i :: 0 <= i < last ==> IsDue(scores, total, i)
  {
    forall i | 0 <= i < last
      ensures Count(scores, total, i) > 0 <==> IsDue(scores, total, i)
    {
      RoomForOne(scores, total, last, i);
    }
  }

  lemma RoundedSharesReachAll(scores: seq<real>, total: nat)
    requires Scores(scores) && scores != [] && !Fallback(scores)
    ensures EveryCountPositive(scores, total) <==> LeavesNoneOut(scores, total)
  {
    var last := |scores| - 1;
    LastCount(scores, total);
    if RoundedTotal(scores, total, last) < total {
      RoomReachesAll(scores, total, last);
    } else {
      assert Count(scores, total, last) <= 0;
    }
  }

  /** Every node gets a layer if and only if the scores leave none out. */
  lemma NoneLeftOut(scores: seq<real>, total: nat)
    requires Scores(scores) && scores != []
    ensures EveryCountPositive(scores, total) <==> LeavesNoneOut(scores, total)
  {
    if Fallback(scores) {
      EqualSharesReachAll(scores, total);
    } else {
      RoundedSharesReachAll(scores, total);
    }
  }

  lemma EqualSharesPositive(total: nat, n: nat)
    requires n > 0
    ensures total / n > 0 <==> total >= n
  {
  }

  // ---------------------------------------------------------------- the bound is sharp

  /** `n` nodes, of which the last scores n - 1 parts against 2n + 1 parts of every other. */
  function SharpScores(n: nat): (scores: seq<real>)
    requires n >= 2
    ensures |scores| == n
  {
    seq(n, i requires 0 <= i < n => if i < n - 1 then 1.0 else (n - 1) as real * (1.0 / (2 * n + 1) as real))
  }

  lemma SharpUnit(n: nat)
    requires n >= 2
    ensures var u := 1.0 / (2 * n + 1) as real;
            && (2 * n + 1) as real * u == 1.0
            && 0.0 < (n - 1) as real * u <= 1.0
            && (n as real + 0.5) * u == 0.5
  {
    var u := 1.0 / (2 * n + 1) as real;
    assert (2 * n + 1) as real == 2.0 * (n as real + 0.5);
    assert (n - 1) as real * u <= (2 * n + 1) as real * u;
  }

  lemma {:induction false} SharpPartial(n: nat, i: nat)
    requires n >= 2 && i < n
    ensures Total(SharpScores(n)[..i]) == i as real
  {
    if i > 0 {
      SharpPartial(n, i - 1);
      assert SharpScores(n)[..i][..i - 1] == SharpScores(n)[..i - 1];
    }
  }

  lemma SharpTotal(n: nat)
    requires n >= 2
    ensures Scores(SharpScores(n)) && Descending(SharpScores(n))
    ensures Total(SharpScores(n)) == (n - 1) as real * (1.0 + 1.0 / (2 * n + 1) as real) > 0.0
  {
    SharpPartial(n, n - 1);
    SharpUnit(n);
    var (k, u) := ((n - 1) as real, 1.0 / (2 * n + 1) as real);
    assert k * (1.0 + u) == k + k * u;
  }

  lemma QuotientIs(x: real, d: real, t: real, y: real)
    requires d > 0.0 && x * t == y * d
    ensures x / d * t == y
  {
    assert x / d * t == x * t / d;
    assert y * d / d == y;
  }

  /** With (n - 1)(n + 1) layers every node but the last is due n + 1/2 layers, and the last (n - 1)/2. */
  lemma SharpShares(n: nat, i: nat)
    requires n >= 2 && i < n && !Fallback(SharpScores(n))
    ensures IdealShare(SharpScores(n), (n - 1) * (n + 1), i)
         == if i < n - 1 then n as real + 0.5 else (n - 1) as real / 2.0
  {
    SharpTotal(n);
    SharpUnit(n);
    SharpLayers(n);
    SharpQuotients((n - 1) as real, 1.0 / (2 * n + 1) as real, n as real + 0.5, ((n - 1) * (n + 1)) as real);
  }

  lemma SharpLayers(n: nat)
    requires n >= 2
    ensures ((n - 1) * (n + 1)) as real == (n - 1) as real * (n as real + 0.5 + 0.5)
  {
    assert (n + 1) as real == n as real + 0.5 + 0.5;
  }

  lemma SharpQuotients(k: real, u: real, m: real, t: real)
    requires k > 0.0 && u > 0.0 && m * u == 0.5 && t == k * (m + 0.5)
    ensures k * (1.0 + u) > 0.0
    ensures 1.0 / (k * (1.0 + u)) * t == m
    ensures k * u / (k * (1.0 + u)) * t == k / 2.0
  {
    SharpProducts(k, u, m);
    QuotientIs(1.0, k * (1.0 + u), t, m);
    QuotientIs(k * u, k * (1.0 + u), t, k / 2.0);
  }

  lemma SharpProducts(k: real, u: real, m: real)
    requires m * u == 0.5
    ensures m * (k * (1.0 + u)) == k * (m + 0.5)
    ensures k * u * (k * (m + 0.5)) == k / 2.0 * (k * (1.0 + u))
  {
    assert m * (1.0 + u) == m + 0.5;
    assert m * (k * (1.0 + u)) == k * (m * (1.0 + u));
    assert u * (m + 0.5) == 0.5 * (1.0 + u);
    assert k * u * (k * (m + 0.5)) == k * (k * (u * (m + 0.5)));
  }

  lemma {:induction false} SharpBoundaries(n: nat, i: nat)
    requires n >= 2 && i < n && !Fallback(SharpScores(n)) && Scores(SharpScores(n))
    ensures Boundary(SharpScores(n), (n - 1) * (n + 1), i) == i * (n + 1)
  {
    if i > 0 {
      SharpBoundaries(n, i - 1);
      SharpShares(n, i - 1);
      assert Round(n as real + 0.5) == n + 1;
      assert (i - 1) * (n + 1) + (n + 1) == i * (n + 1);
      Multiples(i, n - 1, n + 1);
    }
  }

  /**
   The error bound is reached for every number of nodes: every other node is rounded up by a half, and the
   last, though it has capacity and is due (n - 1)/2 layers, gets none.
   */
  lemma ErrorBoundIsSharp(n: nat)
    requires n >= 2
    ensures var (scores, total) := (SharpScores(n), (n - 1) * (n + 1));
            && Scores(scores) && Descending(scores) && !Fallback(scores) && scores[n - 1] > 0.0
            && Count(scores, total, n - 1) == 0
            && IdealShare(scores, total, n - 1) == (n - 1) as real / 2.0
  {
    SharpTotal(n);
    SharpUnit(n);
    SharpBoundaries(n, n - 1);
    SharpShares(n, n - 1);
  }
}
