/** `sample_distribution_t`: exact moments over every sample, and a bounded reservoir the percentiles are
    read from. The firmware's capacity is 8192; nothing here depends on its value. */
module Reservoir {
  import Arithmetic
  import opened Distribution
  import opened Moments

  /** The kept samples are some of the inputs, each at most as often as it was added, and all of them
      until the reservoir is full. */
  ghost predicate Retained(kept: seq<nat>, capacity: nat, inputs: seq<nat>) {
    |kept| == Smaller(|inputs|, capacity) && multiset(kept) <= multiset(inputs)
  }

  lemma RetainMore(kept: seq<nat>, capacity: nat, inputs: seq<nat>, x: nat)
    requires Retained(kept, capacity, inputs) && |kept| < capacity
    ensures Retained(kept + [x], capacity, inputs + [x])
  {}

  lemma RetainInstead(kept: seq<nat>, capacity: nat, inputs: seq<nat>, x: nat, slot: nat)
    requires Retained(kept, capacity, inputs) && slot < |kept| == capacity
    ensures Retained(kept[slot := x], capacity, inputs + [x])
  {
    assert kept == kept[..slot] + [kept[slot]] + kept[slot + 1..];
    assert kept[slot := x] == kept[..slot] + [x] + kept[slot + 1..];
  }

  lemma RetainSame(kept: seq<nat>, capacity: nat, inputs: seq<nat>, x: nat)
    requires Retained(kept, capacity, inputs) && |kept| == capacity
    ensures Retained(kept, capacity, inputs + [x])
  {}

  lemma RetainSorted(kept: seq<nat>, capacity: nat, inputs: seq<nat>)
    requires Retained(kept, capacity, inputs)
    ensures Retained(Sorted(kept), capacity, inputs)
  {
    SortedSorts(kept);
  }

  /** Up to the capacity nothing is lost: every percentile of the reservoir is that of the whole
      population, as the host would compute it. */
  lemma WholePopulation(kept: seq<nat>, capacity: nat, inputs: seq<nat>, q: Quantile)
    requires Retained(kept, capacity, inputs) && q.Proper() && |inputs| <= capacity
    ensures Percentile(kept, q) == Percentile(inputs, q)
  {
    var missing := multiset(inputs) - multiset(kept);
    assert multiset(inputs) == multiset(kept) + missing;
    assert |missing| == 0;
    SortedIgnoresOrder(kept, inputs);
  }

  lemma PercentileInRange(kept: seq<nat>, capacity: nat, inputs: seq<nat>, q: Quantile, low: nat, high: nat)
    requires Retained(kept, capacity, inputs) && capacity > 0 && inputs != [] && q.Proper()
    requires Range(inputs, low, high)
    ensures Percentile(kept, q) in inputs && low <= Percentile(kept, q) <= high
  {
    PercentileMeaning(kept, q);
    assert Percentile(kept, q) in multiset(kept);
  }

  /** `bounded` in `distribution_add` */
  function Clamp(value: nat): nat {
    if value > UINT32_MAX then UINT32_MAX else value
  }

  /** The reservoir after one more value: at the end while there is room, then in place of the value in its slot
      if the slot is inside, then nowhere. */
  function AfterOneMore(kept: seq<nat>, capacity: nat, x: nat, slot: nat): (after: seq<nat>)
    requires |kept| <= capacity
    ensures |kept| < capacity ==> after == kept + [x]
    ensures |kept| == capacity && slot < capacity ==>
      |after| == capacity && after[slot] == x && forall i | 0 <= i < capacity && i != slot :: after[i] == kept[i]
    ensures |kept| == capacity && slot >= capacity ==> after == kept
  {
    if |kept| < capacity then kept + [x] else if slot < capacity then kept[slot := x] else kept
  }

  datatype Moment = Moment(count: nat, sum: nat, sumSquares: nat, min: nat, max: nat)

  /** The moments are exactly those of the inputs. */
  ghost predicate Exactly(m: Moment, inputs: seq<nat>) {
    && m.count == |inputs|
    && m.sum == Sum(inputs)
    && m.sumSquares == SumSquares(inputs)
    && (if inputs == [] then m.min == UINT32_MAX && m.max == 0 else Range(inputs, m.min, m.max))
  }

  function Added(m: Moment, x: nat): Moment {
    Moment(m.count + 1, m.sum + x, m.sumSquares + x * x, Smaller(x, m.min), Larger(x, m.max))
  }

  lemma AddedExactly(m: Moment, inputs: seq<nat>, x: nat)
    requires Exactly(m, inputs) && x <= UINT32_MAX
    ensures Exactly(Added(m, x), inputs + [x])
  {
    assert (inputs + [x])[..|inputs|] == inputs;
    if inputs == [] {
      assert x in inputs + [x];
    }
  }

  datatype Summary = Summary(
    count: nat, min: nat, mean: real, p50: nat, p90: nat, p95: nat, p99: nat, p999: nat, max: nat, variance: real)

  const P50: Quantile := Quantile(1, 2)
  const P90: Quantile := Quantile(9, 10)
  const P95: Quantile := Quantile(95, 100)
  const P99: Quantile := Quantile(99, 100)
  const P999: Quantile := Quantile(999, 1000)

  /** What the report says of a reservoir. */
  ghost predicate Reports(r: Summary, kept: seq<nat>, m: Moment) {
    && r.count == m.count
    && r.min == (if m.count == 0 then 0 else m.min)
    && r.p50 == Percentile(kept, P50) && r.p90 == Percentile(kept, P90) && r.p95 == Percentile(kept, P95)
    && r.p99 == Percentile(kept, P99) && r.p999 == Percentile(kept, P999)
    && r.max == m.max
    && MomentsOf(r.mean, r.variance, m)
  }

  /** The mean and the variance before its clamp at zero, as exact numbers. */
  ghost predicate MomentsOf(mean: real, variance: real, m: Moment) {
    if m.count == 0 then mean == 0.0 && variance == 0.0
    else
      && mean * m.count as real == m.sum as real
      && (variance + mean * mean) * m.count as real == m.sumSquares as real
  }

  lemma {:induction false} SumInRange(s: seq<nat>, low: nat, high: nat)
    requires forall i | 0 <= i < |s| :: low <= s[i] <= high
    ensures |s| * low <= Sum(s) <= |s| * high
  {
    if s != [] {
      SumInRange(s[..|s| - 1], low, high);
      Arithmetic.Distribute(low, |s| - 1);
      Arithmetic.Distribute(high, |s| - 1);
    }
  }

  lemma MeanBounds(s: seq<nat>, low: nat, high: nat)
    requires Range(s, low, high)
    ensures |s| * low <= Sum(s) <= |s| * high
  {
    forall i | 0 <= i < |s|
      ensures low <= s[i] <= high
    {
      assert s[i] in s;
    }
    SumInRange(s, low, high);
  }

  lemma QuotientInRange(n: nat, sum: nat, low: nat, high: nat, mean: real)
    requires n > 0 && n * low <= sum <= n * high && mean * n as real == sum as real
    ensures low as real <= mean <= high as real
  {
    var x, y := mean - low as real, high as real - mean;
    assert x * n as real == (sum - n * low) as real;
    assert y * n as real == (n * high - sum) as real;
    assert x < 0.0 ==> x * n as real < 0.0;
    assert y < 0.0 ==> y * n as real < 0.0;
  }

  lemma NotNegative(n: nat, sum: nat, squares: nat, mean: real, variance: real)
    requires n > 0 && n * squares >= sum * sum
    requires mean * n as real == sum as real && (variance + mean * mean) * n as real == squares as real
    ensures variance >= 0.0
  {
    var k := n as real;
    assert (n * squares) as real == k * (squares as real) && (sum * sum) as real == (sum as real) * (sum as real);
    assert k * ((variance + mean * mean) * k) == variance * (k * k) + (mean * k) * (mean * k);
    assert variance * (k * k) >= 0.0;
    assert k * k > 0.0;
    assert variance < 0.0 ==> variance * (k * k) < 0.0;
  }

  /** The moments of a non-empty series satisfy the two inequalities behind the mean and the variance. */
  lemma MomentInequalities(m: Moment, inputs: seq<nat>)
    requires Exactly(m, inputs) && inputs != []
    ensures m.count > 0
    ensures m.count * m.min <= m.sum <= m.count * m.max
    ensures m.count * m.sumSquares >= m.sum * m.sum
  {
    MeanBounds(inputs, m.min, m.max);
    VarianceIsNotNegative(inputs);
  }

  lemma SpreadInRange(mean: real, variance: real, m: Moment)
    requires m.count > 0 && MomentsOf(mean, variance, m)
    requires m.count * m.min <= m.sum <= m.count * m.max
    requires m.count * m.sumSquares >= m.sum * m.sum
    ensures m.min as real <= mean <= m.max as real && variance >= 0.0
  {
    QuotientInRange(m.count, m.sum, m.min, m.max, mean);
    NotNegative(m.count, m.sum, m.sumSquares, mean, variance);
  }

  /** The exact mean lies between the extremes, and the exact variance is never negative: the clamp in the
      report can only undo rounding. */
  lemma ReportedMoments(r: Summary, kept: seq<nat>, m: Moment, inputs: seq<nat>)
    requires Exactly(m, inputs) && Reports(r, kept, m)
    ensures inputs != [] ==> r.min as real <= r.mean <= r.max as real
    ensures r.variance >= 0.0
  {
    if inputs != [] {
      MomentInequalities(m, inputs);
      SpreadInRange(r.mean, r.variance, m);
    }
  }

  /** Every report is in order: min <= p50 <= p90 <= p95 <= p99 <= p999 <= max. */
  lemma ReportIsOrdered(r: Summary, kept: seq<nat>, m: Moment, capacity: nat, inputs: seq<nat>)
    requires capacity > 0 && Retained(kept, capacity, inputs) && Exactly(m, inputs) && Reports(r, kept, m)
    ensures r.min <= r.p50 <= r.p90 <= r.p95 <= r.p99 <= r.p999 <= r.max
    ensures inputs != [] ==> Range(inputs, r.min, r.max)
  {
    PercentilesAreOrdered(kept, P50, P90);
    PercentilesAreOrdered(kept, P90, P95);
    PercentilesAreOrdered(kept, P95, P99);
    PercentilesAreOrdered(kept, P99, P999);
    if inputs != [] {
      PercentileInRange(kept, capacity, inputs, P50, m.min, m.max);
      PercentileInRange(kept, capacity, inputs, P999, m.min, m.max);
    }
  }

  /** The positions of the samples at or below v, and of those below it. */
  function UpTo(s: seq<nat>, v: nat): set<int> {
    set i | 0 <= i < |s| && s[i] <= v
  }

  function Under(s: seq<nat>, v: nat): set<int> {
    set i | 0 <= i < |s| && s[i] < v
  }

  lemma {:induction false} AtMostIsCardinality(s: seq<nat>, v: nat)
    ensures AtMost(s, v) == |UpTo(s, v)|
  {
    if s == [] {
      assert UpTo(s, v) == {};
    } else {
      var n := |s| - 1;
      AtMostIsCardinality(s[..n], v);
      assert UpTo(s, v) == UpTo(s[..n], v) + (if s[n] <= v then {n} else {});
    }
  }

  lemma {:induction false} BelowIsCardinality(s: seq<nat>, v: nat)
    ensures Below(s, v) == |Under(s, v)|
  {
    if s == [] {
      assert Under(s, v) == {};
    } else {
      var n := |s| - 1;
      BelowIsCardinality(s[..n], v);
      assert Under(s, v) == Under(s[..n], v) + (if s[n] < v then {n} else {});
    }
  }

  /** At least this fraction of the samples is at or below v, and less than it strictly below. */
  ghost predicate Fraction(s: seq<nat>, num: nat, den: nat, v: nat) {
    && v in s
    && den * |set i | 0 <= i < |s| && s[i] <= v| >= num * |s|
    && den * |set i | 0 <= i < |s| && s[i] < v| < num * |s|
  }

  lemma PercentileIsFraction(s: seq<nat>, q: Quantile)
    requires q.Proper() && s != []
    ensures Fraction(s, q.num, q.den, Percentile(s, q))
  {
    var v := Percentile(s, q);
    PercentileMeaning(s, q);
    Ceiling(q, |s|);
    AtMostIsCardinality(s, v);
    BelowIsCardinality(s, v);
    assert UpTo(s, v) == (set i | 0 <= i < |s| && s[i] <= v) && Under(s, v) == (set i | 0 <= i < |s| && s[i] < v);
    Arithmetic.Scaled(q.den, CeilOf(q, |s|), AtMost(s, v));
    Arithmetic.Scaled(q.den, Below(s, v), CeilOf(q, |s|) - 1);
  }

  /** Of the retained samples at least 50, 90, 95, 99 and 99.9 percent are at or below the figures reported under
      these names, and fewer below. */
  lemma PercentagesReported(r: Summary, kept: seq<nat>, m: Moment)
    requires Reports(r, kept, m) && kept != []
    ensures Fraction(kept, 50, 100, r.p50)
    ensures Fraction(kept, 90, 100, r.p90)
    ensures Fraction(kept, 95, 100, r.p95)
    ensures Fraction(kept, 99, 100, r.p99)
    ensures Fraction(kept, 999, 1000, r.p999)
  {
    PercentileIsFraction(kept, P50);
    PercentileIsFraction(kept, P90);
    PercentileIsFraction(kept, P95);
    PercentileIsFraction(kept, P99);
    PercentileIsFraction(kept, P999);
  }

  /** Up to the capacity the report is what the host's percentile would say of every sample added. */
  lemma ReportIsOfThePopulation(r: Summary, kept: seq<nat>, m: Moment, capacity: nat, inputs: seq<nat>)
    requires Retained(kept, capacity, inputs) && Reports(r, kept, m) && |inputs| <= capacity
    ensures r.p50 == Percentile(inputs, P50) && r.p90 == Percentile(inputs, P90)
    ensures r.p95 == Percentile(inputs, P95) && r.p99 == Percentile(inputs, P99)
    ensures r.p999 == Percentile(inputs, P999)
  {
    WholePopulation(kept, capacity, inputs, P50);
    WholePopulation(kept, capacity, inputs, P90);
    WholePopulation(kept, capacity, inputs, P95);
    WholePopulation(kept, capacity, inputs, P99);
    WholePopulation(kept, capacity, inputs, P999);
  }

  class SampleDistribution {
    const samples: array<nat>
    var reservoirCount: nat
    var sampleCount: nat
    var sum: nat
    var sumSquares: nat
    var min: nat
    var max: nat
    /** Every value added so far, clamped to 32 bits. */
    ghost var inputs: seq<nat>

    ghost function Moments(): Moment
      reads this
    {
      Moment(sampleCount, sum, sumSquares, min, max)
    }

    ghost function Kept(): seq<nat>
      requires reservoirCount <= samples.Length
      reads this, samples
    {
      samples[..reservoirCount]
    }

    ghost predicate Valid()
      reads this, samples
    {
      && samples.Length > 0
      && reservoirCount <= samples.Length
      && Exactly(Moments(), inputs)
      && Retained(Kept(), samples.Length, inputs)
    }

    /** `distribution_reset` */
    constructor (capacity: nat)
      requires capacity > 0
      ensures Valid() && fresh(samples) && samples.Length == capacity && inputs == []
    {
      samples := new nat[capacity](i => 0);
      reservoirCount, sampleCount, sum, sumSquares, min, max := 0, 0, 0, 0, UINT32_MAX, 0;
      inputs := [];
    }

    /** `distribution_add`, for any hash of the sample count. */
    method Add(value: nat, hash: nat)
      requires Valid()
      modifies this, samples
      ensures Valid() && inputs == old(inputs) + [Clamp(value)]
      ensures Kept() == AfterOneMore(old(Kept()), samples.Length, if value < 0x1_0000_0000 then value else 0xFFFF_FFFF,
                                     Arithmetic.Remainder(hash, |inputs|))
    {
      var bounded := if value > UINT32_MAX then UINT32_MAX else value;
      AddedExactly(Moments(), inputs, bounded);
      Measure(bounded);
      Retain(bounded, hash);
    }

    /** The moments half of `distribution_add`. */
    method Measure(bounded: nat)
      modifies this`sampleCount, this`sum, this`sumSquares, this`min, this`max
      ensures Moments() == Added(old(Moments()), bounded)
    {
      sampleCount := sampleCount + 1;
      sum := sum + bounded;
      sumSquares := sumSquares + bounded * bounded;
      if bounded < min {
        min := bounded;
      }
      if bounded > max {
        max := bounded;
      }
    }

    /** The reservoir half of `distribution_add`. */
    method Retain(bounded: nat, hash: nat)
      requires samples.Length > 0 && reservoirCount <= samples.Length && sampleCount > 0
      requires Retained(Kept(), samples.Length, inputs)
      modifies this`reservoirCount, this`inputs, samples
      ensures inputs == old(inputs) + [bounded]
      ensures reservoirCount <= samples.Length && Retained(Kept(), samples.Length, inputs)
      ensures Kept() == AfterOneMore(old(Kept()), samples.Length, bounded, Arithmetic.Remainder(hash, sampleCount))
    {
      ghost var kept := Kept();
      inputs := inputs + [bounded];
      if reservoirCount < samples.Length {
        samples[reservoirCount] := bounded;
        reservoirCount := reservoirCount + 1;
        assert Kept() == kept + [bounded];
        RetainMore(kept, samples.Length, old(inputs), bounded);
        return;
      }
      var slot := hash % sampleCount;
      Arithmetic.RemainderIsModulo(hash, sampleCount);
      if slot < samples.Length {
        samples[slot] := bounded;
        assert Kept() == kept[slot := bounded];
        RetainInstead(kept, samples.Length, old(inputs), bounded, slot);
      } else {
        RetainSame(kept, samples.Length, old(inputs), bounded);
      }
    }

    /** The mean and variance of `distribution_json`, in exact arithmetic. */
    method Spread() returns (mean: real, variance: real)
      ensures MomentsOf(mean, variance, Moments())
    {
      mean, variance := 0.0, 0.0;
      if sampleCount != 0 {
        var n := sampleCount as real;
        mean := sum as real / n;
        variance := sumSquares as real / n - mean * mean;
        assert variance + mean * mean == sumSquares as real / n;
      }
    }

    /** `distribution_json`: sorts the reservoir in place and reads the percentiles off it. */
    method Report() returns (r: Summary)
      requires Valid()
      modifies samples
      ensures Valid() && inputs == old(inputs)
      ensures Reports(r, Kept(), Moments())
    {
      RetainSorted(Kept(), samples.Length, inputs);
      SortPrefix(samples, reservoirCount);
      SortedTwice(old(samples[..reservoirCount]));
      var p50 := NearestRank(samples, reservoirCount, P50);
      var p90 := NearestRank(samples, reservoirCount, P90);
      var p95 := NearestRank(samples, reservoirCount, P95);
      var p99 := NearestRank(samples, reservoirCount, P99);
      var p999 := NearestRank(samples, reservoirCount, P999);
      var mean, variance := Spread();
      r := Summary(sampleCount, if sampleCount == 0 then 0 else min, mean, p50, p90, p95, p99, p999, max, variance);
    }
  }

  lemma SortedTwice(s: seq<nat>)
    ensures Sorted(Sorted(s)) == Sorted(s)
  {
    SortedSorts(s);
    SortedIgnoresOrder(Sorted(s), s);
  }
}
