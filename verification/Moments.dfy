/** Sums, extremes and successive differences of a series of samples. */
module Moments {

  function Sum(s: seq<nat>): nat {
    if s == [] then 0 else Sum(s[..|s| - 1]) + s[|s| - 1]
  }

  function SumSquares(s: seq<nat>): nat {
    if s == [] then 0 else SumSquares(s[..|s| - 1]) + s[|s| - 1] * s[|s| - 1]
  }

  function Smaller(a: nat, b: nat): nat {
    if a < b then a else b
  }

  function Larger(a: nat, b: nat): nat {
    if a > b then a else b
  }

  function Gap(a: nat, b: nat): nat {
    if a > b then a - b else b - a
  }

  /** The smallest and largest of a series, as the two ends of its range. */
  ghost predicate Range(s: seq<nat>, low: nat, high: nat) {
    low in s && high in s && forall x | x in s :: low <= x <= high
  }

  /** Sum of the absolute successive differences. */
  function Variation(s: seq<nat>): nat {
    if |s| < 2 then 0 else Variation(s[..|s| - 1]) + Gap(s[|s| - 1], s[|s| - 2])
  }

  /** The largest absolute successive difference. */
  function LargestStep(s: seq<nat>): nat {
    if |s| < 2 then 0 else Larger(LargestStep(s[..|s| - 1]), Gap(s[|s| - 1], s[|s| - 2]))
  }

  /** The two sums add up over any split of the series, and of one sample are it and its square. */
  lemma {:induction false} SumsAddUp(s: seq<nat>, t: seq<nat>, x: nat)
    ensures Sum(s + t) == Sum(s) + Sum(t) && SumSquares(s + t) == SumSquares(s) + SumSquares(t)
    ensures Sum([x]) == x && SumSquares([x]) == x * x
  {
    assert [x][..0] == [];
    if t == [] {
      assert s + t == s;
    } else {
      assert (s + t)[..|s + t| - 1] == s + t[..|t| - 1];
      SumsAddUp(s, t[..|t| - 1], x);
    }
  }

  /** The absolute difference of each two successive samples. */
  function Steps(s: seq<nat>): seq<nat> {
    if |s| < 2 then []
    else seq(|s| - 1, i requires 0 <= i < |s| - 1 => if s[i + 1] > s[i] then s[i + 1] - s[i] else s[i] - s[i + 1])
  }

  lemma OneMoreStep(s: seq<nat>)
    requires |s| >= 2
    ensures Steps(s) == Steps(s[..|s| - 1]) + [Gap(s[|s| - 1], s[|s| - 2])]
  {}

  /** The jitter sum is the sum of the absolute differences of successive round trips, and the largest jitter the
      largest of them. */
  lemma {:induction false} JitterIsOfTheSteps(s: seq<nat>)
    ensures Variation(s) == Sum(Steps(s))
    ensures forall x | x in Steps(s) :: x <= LargestStep(s)
    ensures |s| >= 2 ==> LargestStep(s) in Steps(s)
  {
    if |s| >= 2 {
      var past := s[..|s| - 1];
      JitterIsOfTheSteps(past);
      OneMoreStep(s);
      assert Steps(s)[..|Steps(s)| - 1] == Steps(past);
      if |past| < 2 {
        assert Steps(past) == [];
      }
    }
  }

  /** Sum of the squared distances from x. */
  function Deviations(s: seq<nat>, x: nat): nat {
    if s == [] then 0 else Deviations(s[..|s| - 1], x) + Gap(s[|s| - 1], x) * Gap(s[|s| - 1], x)
  }

  lemma {:induction false} DeviationsExpanded(s: seq<nat>, x: nat)
    ensures Deviations(s, x) == |s| * (x * x) - 2 * (Sum(s) * x) + SumSquares(s)
  {
    if s != [] {
      DeviationsExpanded(s[..|s| - 1], x);
      NextDeviation(|s| - 1, Sum(s[..|s| - 1]), s[|s| - 1], x);
    }
  }

  lemma NextDeviation(n: nat, sum: nat, y: nat, x: nat)
    ensures Gap(y, x) * Gap(y, x) == x * x - 2 * (y * x) + y * y
    ensures (n + 1) * (x * x) == n * (x * x) + x * x
    ensures (sum + y) * x == sum * x + y * x
  {
    var g := y - x;
    assert g * g == x * x - 2 * (y * x) + y * y;
    assert Gap(y, x) == g || Gap(y, x) == -g;
  }

  /** The exact variance is never negative: the clamp at zero in the report can only undo rounding. */
  lemma {:induction false} VarianceIsNotNegative(s: seq<nat>)
    ensures |s| * SumSquares(s) >= Sum(s) * Sum(s)
  {
    if s != [] {
      var past, x := s[..|s| - 1], s[|s| - 1];
      VarianceIsNotNegative(past);
      DeviationsExpanded(past, x);
      NextVariance(|past|, Sum(past), SumSquares(past), x);
    }
  }

  lemma NextVariance(n: nat, sum: nat, squares: nat, x: nat)
    requires n * squares >= sum * sum
    requires n * (x * x) - 2 * (sum * x) + squares >= 0
    ensures (n + 1) * (squares + x * x) >= (sum + x) * (sum + x)
  {
    assert (n + 1) * (squares + x * x) == n * squares + n * (x * x) + squares + x * x;
    assert (sum + x) * (sum + x) == sum * sum + 2 * (sum * x) + x * x;
  }

  lemma {:induction false} DistanceBelowVariation(s: seq<nat>, i: nat, j: nat)
    requires i < |s| && j < |s|
    ensures Gap(s[i], s[j]) <= Variation(s)
  {
    var n := |s| - 1;
    if n > 0 {
      var past := s[..n];
      DistanceBelowVariation(past, if i < n then i else n - 1, if j < n then j else n - 1);
    }
  }

  lemma {:induction false} StepInRange(s: seq<nat>, low: nat, high: nat)
    requires forall i | 0 <= i < |s| :: low <= s[i] <= high
    requires low <= high
    ensures LargestStep(s) <= high - low
  {
    if |s| >= 2 {
      StepInRange(s[..|s| - 1], low, high);
    }
  }

  lemma {:induction false} VariationBelowSteps(s: seq<nat>)
    requires s != []
    ensures Variation(s) <= (|s| - 1) * LargestStep(s)
  {
    if |s| >= 2 {
      VariationBelowSteps(s[..|s| - 1]);
      NextStep(|s| - 2, Variation(s[..|s| - 1]), LargestStep(s[..|s| - 1]), Gap(s[|s| - 1], s[|s| - 2]));
    }
  }

  lemma NextStep(n: nat, variation: nat, largest: nat, step: nat)
    requires variation <= n * largest
    ensures variation + step <= (n + 1) * Larger(largest, step)
  {
    var b := Larger(largest, step);
    assert n * b == n * largest + n * (b - largest);
    assert (n + 1) * b == n * b + b;
  }

  /** The jitter figures bracket the spread of the samples: no step exceeds the range, the range never
      exceeds the sum of the steps, and the mean step never exceeds the largest. */
  lemma JitterBounds(s: seq<nat>, low: nat, high: nat)
    requires Range(s, low, high)
    ensures LargestStep(s) <= high - low <= Variation(s) <= (|s| - 1) * LargestStep(s)
  {
    assert low <= high by {
      assert low in s;
    }
    forall i | 0 <= i < |s| ensures low <= s[i] <= high {
      assert s[i] in s;
    }
    StepInRange(s, low, high);
    var i :| 0 <= i < |s| && s[i] == low;
    var j :| 0 <= j < |s| && s[j] == high;
    DistanceBelowVariation(s, i, j);
    VariationBelowSteps(s);
  }
}
