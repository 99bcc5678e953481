/** Bounded sample distributions: exact moments, a reservoir of retained samples, and nearest-rank
    percentiles over it. */
module Distribution {
  import opened Arithmetic
  import opened Moments

  const UINT32_MAX: nat := 0xFFFF_FFFF

  // ----- rank statistics of a series, whatever its order -----

  function AtMost(s: seq<nat>, v: nat): (n: nat)
    ensures n <= |s|
  {
    if s == [] then 0 else AtMost(s[..|s| - 1], v) + (if s[|s| - 1] <= v then 1 else 0)
  }

  function Below(s: seq<nat>, v: nat): (n: nat)
    ensures n <= |s|
  {
    if s == [] then 0 else Below(s[..|s| - 1], v) + (if s[|s| - 1] < v then 1 else 0)
  }

  /** v is the element of rank r: at least r elements are no larger, fewer than r are smaller. */
  ghost predicate AtRank(s: seq<nat>, r: nat, v: nat) {
    v in s && Below(s, v) < r <= AtMost(s, v)
  }

  lemma {:induction false} CountsConcat(s: seq<nat>, t: seq<nat>, v: nat)
    ensures AtMost(s + t, v) == AtMost(s, v) + AtMost(t, v)
    ensures Below(s + t, v) == Below(s, v) + Below(t, v)
  {
    if t == [] {
      assert s + t == s;
    } else {
      assert (s + t)[..|s + t| - 1] == s + t[..|t| - 1];
      CountsConcat(s, t[..|t| - 1], v);
    }
  }

  lemma WithoutOne(t: seq<nat>, i: nat, v: nat)
    requires i < |t|
    ensures var rest := t[..i] + t[i + 1..];
            && multiset(t) == multiset(rest) + multiset{t[i]}
            && AtMost(t, v) == AtMost(rest, v) + (if t[i] <= v then 1 else 0)
            && Below(t, v) == Below(rest, v) + (if t[i] < v then 1 else 0)
  {
    assert t == t[..i] + [t[i]] + t[i + 1..];
    CountsConcat(t[..i], t[i + 1..], v);
    CountsConcat(t[..i] + [t[i]], t[i + 1..], v);
    CountsConcat(t[..i], [t[i]], v);
  }

  lemma {:induction false} CountsIgnoreOrder(s: seq<nat>, t: seq<nat>, v: nat)
    requires multiset(s) == multiset(t)
    ensures AtMost(s, v) == AtMost(t, v) && Below(s, v) == Below(t, v)
  {
    if s == [] {
      assert |multiset(t)| == 0;
    } else {
      var past, x := s[..|s| - 1], s[|s| - 1];
      assert s == past + [x];
      assert multiset(s) == multiset(past) + multiset{x};
      assert x in multiset(t);
      var i :| 0 <= i < |t| && t[i] == x;
      var rest := t[..i] + t[i + 1..];
      WithoutOne(t, i, v);
      assert multiset(past) == multiset(s) - multiset{x} == multiset(rest);
      CountsIgnoreOrder(past, rest, v);
    }
  }

  lemma {:induction false} CountsGrow(s: seq<nat>, v: nat, w: nat)
    requires v < w
    ensures AtMost(s, v) <= Below(s, w)
  {
    if s != [] {
      CountsGrow(s[..|s| - 1], v, w);
    }
  }

  /** A rank names one value: with its two counts the nearest-rank percentile is fully determined. */
  lemma RankIsUnique(s: seq<nat>, r: nat, v: nat, w: nat)
    requires AtRank(s, r, v) && AtRank(s, r, w)
    ensures v == w
  {
    if v < w {
      CountsGrow(s, v, w);
    } else if w < v {
      CountsGrow(s, w, v);
    }
  }

  // ----- sorting -----

  ghost predicate IsSorted(s: seq<nat>) {
    forall i, j | 0 <= i < j < |s| :: s[i] <= s[j]
  }

  function Insert(x: nat, s: seq<nat>): (t: seq<nat>)
    ensures |t| == |s| + 1
  {
    if s == [] || s[|s| - 1] <= x then s + [x] else Insert(x, s[..|s| - 1]) + [s[|s| - 1]]
  }

  function Sorted(s: seq<nat>): (t: seq<nat>)
    ensures |t| == |s|
  {
    if s == [] then [] else Insert(s[|s| - 1], Sorted(s[..|s| - 1]))
  }

  lemma {:induction false} InsertAdds(x: nat, s: seq<nat>)
    ensures multiset(Insert(x, s)) == multiset(s) + multiset{x}
  {
    if s != [] && s[|s| - 1] > x {
      InsertAdds(x, s[..|s| - 1]);
      assert s == s[..|s| - 1] + [s[|s| - 1]];
    }
  }

  lemma InsertBounded(x: nat, s: seq<nat>, y: nat)
    requires x <= y && forall i | 0 <= i < |s| :: s[i] <= y
    ensures forall i | 0 <= i < |Insert(x, s)| :: Insert(x, s)[i] <= y
  {
    InsertAdds(x, s);
    forall i | 0 <= i < |Insert(x, s)|
      ensures Insert(x, s)[i] <= y
    {
      assert Insert(x, s)[i] in multiset(Insert(x, s));
    }
  }

  lemma {:induction false} InsertSorts(x: nat, s: seq<nat>)
    requires IsSorted(s)
    ensures IsSorted(Insert(x, s))
  {
    if s != [] && s[|s| - 1] > x {
      InsertSorts(x, s[..|s| - 1]);
      InsertBounded(x, s[..|s| - 1], s[|s| - 1]);
    }
  }

  lemma {:induction false} SortedSorts(s: seq<nat>)
    ensures IsSorted(Sorted(s)) && multiset(Sorted(s)) == multiset(s)
  {
    if s != [] {
      var past, x := s[..|s| - 1], s[|s| - 1];
      assert s == past + [x];
      SortedSorts(past);
      InsertSorts(x, Sorted(past));
      InsertAdds(x, Sorted(past));
    }
  }

  lemma {:induction false} Extremes(s: seq<nat>, v: nat)
    ensures (forall i | 0 <= i < |s| :: s[i] <= v) ==> AtMost(s, v) == |s|
    ensures (forall i | 0 <= i < |s| :: s[i] >= v) ==> Below(s, v) == 0
  {
    if s != [] {
      Extremes(s[..|s| - 1], v);
    }
  }

  lemma EnoughAtMost(t: seq<nat>, r: nat)
    requires IsSorted(t) && 1 <= r <= |t|
    ensures AtMost(t, t[r - 1]) >= r
  {
    var v := t[r - 1];
    assert t == t[..r] + t[r..];
    CountsConcat(t[..r], t[r..], v);
    Extremes(t[..r], v);
  }

  lemma FewBelow(t: seq<nat>, r: nat)
    requires IsSorted(t) && 1 <= r <= |t|
    ensures Below(t, t[r - 1]) < r
  {
    var v := t[r - 1];
    assert t == t[..r - 1] + t[r - 1..];
    CountsConcat(t[..r - 1], t[r - 1..], v);
    Extremes(t[r - 1..], v);
  }

  lemma RankInSorted(t: seq<nat>, r: nat)
    requires IsSorted(t) && 1 <= r <= |t|
    ensures AtRank(t, r, t[r - 1])
  {
    EnoughAtMost(t, r);
    FewBelow(t, r);
  }

  lemma RankIgnoresOrder(s: seq<nat>, t: seq<nat>, r: nat, v: nat)
    requires multiset(s) == multiset(t) && AtRank(t, r, v)
    ensures AtRank(s, r, v)
  {
    CountsIgnoreOrder(s, t, v);
    assert v in multiset(t);
  }

  /** Position r-1 of the sorted series holds the element of rank r. */
  lemma SortedAtRank(s: seq<nat>, r: nat)
    requires 1 <= r <= |s|
    ensures AtRank(s, r, Sorted(s)[r - 1])
  {
    SortedSorts(s);
    RankInSorted(Sorted(s), r);
    RankIgnoresOrder(s, Sorted(s), r, Sorted(s)[r - 1]);
  }

  lemma SameAtRank(s: seq<nat>, t: seq<nat>, r: nat)
    requires multiset(s) == multiset(t) && |s| == |t| && 1 <= r <= |s|
    ensures Sorted(s)[r - 1] == Sorted(t)[r - 1]
  {
    SortedAtRank(s, r);
    SortedAtRank(t, r);
    RankIgnoresOrder(s, t, r, Sorted(t)[r - 1]);
    RankIsUnique(s, r, Sorted(s)[r - 1], Sorted(t)[r - 1]);
  }

  lemma SameEverywhere(s: seq<nat>, t: seq<nat>)
    requires |s| == |t| && forall i | 0 <= i < |s| :: s[i] == t[i]
    ensures s == t
  {}

  lemma SortedIgnoresOrder(s: seq<nat>, t: seq<nat>)
    requires multiset(s) == multiset(t)
    ensures Sorted(s) == Sorted(t)
  {
    assert |s| == |multiset(s)| == |multiset(t)| == |t|;
    forall i | 0 <= i < |Sorted(s)|
      ensures Sorted(s)[i] == Sorted(t)[i]
    {
      SameAtRank(s, t, i + 1);
    }
    SameEverywhere(Sorted(s), Sorted(t));
  }

  /** The C library sort, on the first `count` samples. */
  method SortPrefix(samples: array<nat>, count: nat)
    requires count <= samples.Length
    modifies samples
    ensures samples[..count] == Sorted(old(samples[..count]))
    ensures samples[count..] == old(samples[count..])
  {
    var sorted := Sorted(samples[..count]);
    SortedSorts(samples[..count]);
    for i := 0 to count
      invariant forall j | 0 <= j < i :: samples[j] == sorted[j]
      invariant forall j | count <= j < samples.Length :: samples[j] == old(samples[j])
    {
      samples[i] := sorted[i];
    }
    assert samples[..count] == sorted;
  }

  // ----- the nearest rank -----

  /** A quantile as an exact fraction. */
  datatype Quantile = Quantile(num: nat, den: nat) {
    predicate Proper() {
      0 < num <= den
    }
  }

  function CeilOf(q: Quantile, n: nat): nat
    requires q.Proper()
  {
    CeilDiv(q.num * n, q.den)
  }

  /** The rank is the quantile of n rounded up, and needs no clamping for a proper quantile. */
  lemma Ceiling(q: Quantile, n: nat)
    requires q.Proper() && n > 0
    ensures 1 <= CeilOf(q, n) <= n
    ensures q.den * (CeilOf(q, n) - 1) < q.num * n <= q.den * CeilOf(q, n)
  {
    var r := CeilOf(q, n);
    CeilBounds(q.num * n, q.den);
    Distribute(q.den, r);
    Scaled(n, q.num, q.den);
    Scaled(n, 1, q.num);
    Distribute(q.den, n);
    Scaled(q.den, r, n + 1);
    assert q.den * (r - 1) == q.den * r - q.den;
  }

  lemma CrossMultiplied(a: nat, b: nat, c: nat, d: nat, n: nat, j: nat)
    requires b > 0 && d > 0 && a * d <= c * b
    requires c * n <= d * j
    ensures a * n <= b * j
  {
    Scaled(n, a * d, c * b);
    Regroup(a, n, d);
    Regroup(c, n, b);
    Scaled(b, c * n, d * j);
    Regroup(d, j, b);
    assert d * (a * n) <= d * (b * j);
    if a * n > b * j {
      StrictlyScaled(d, b * j, a * n);
    }
  }

  lemma CeilingGrows(p: Quantile, q: Quantile, n: nat)
    requires p.Proper() && q.Proper() && n > 0 && p.num * q.den <= q.num * p.den
    ensures CeilOf(p, n) <= CeilOf(q, n)
  {
    var i, j := CeilOf(p, n), CeilOf(q, n);
    Ceiling(p, n);
    Ceiling(q, n);
    CrossMultiplied(p.num, p.den, q.num, q.den, n, j);
    Scaled(p.den, i - 1, j);
  }

  /** The percentile of a series: 0 when empty, otherwise the element of rank `ceil(q * n)`. */
  function Percentile(s: seq<nat>, q: Quantile): nat
    requires q.Proper()
  {
    if s == [] then 0
    else
      Ceiling(q, |s|);
      Sorted(s)[CeilOf(q, |s|) - 1]
  }

  /** What a percentile is, independently of sorting: an element of the series, with at least
      `ceil(q * n)` elements no larger and fewer than that smaller. */
  lemma PercentileMeaning(s: seq<nat>, q: Quantile)
    requires q.Proper() && s != []
    ensures AtRank(s, CeilOf(q, |s|), Percentile(s, q))
  {
    Ceiling(q, |s|);
    SortedAtRank(s, CeilOf(q, |s|));
  }

  lemma PercentilesAreOrdered(s: seq<nat>, p: Quantile, q: Quantile)
    requires p.Proper() && q.Proper() && p.num * q.den <= q.num * p.den
    ensures Percentile(s, p) <= Percentile(s, q)
  {
    if s != [] {
      Ceiling(p, |s|);
      Ceiling(q, |s|);
      CeilingGrows(p, q, |s|);
      SortedSorts(s);
    }
  }

  /** `nearest_rank`, on samples already sorted: both ends of the rank are clamped. */
  method NearestRank(samples: array<nat>, count: nat, q: Quantile) returns (v: nat)
    requires count <= samples.Length && q.Proper()
    requires samples[..count] == Sorted(samples[..count])
    ensures v == Percentile(samples[..count], q)
  {
    if count == 0 {
      return 0;
    }
    Ceiling(q, count);
    var rank := CeilDiv(q.num * count, q.den);
    if rank < 1 {
      rank := 1;
    }
    if rank > count {
      rank := count;
    }
    v := samples[rank - 1];
  }

  /** The host's `percentile`, which sorts the slice it is given. */
  method HostPercentile(samples: array<nat>, q: Quantile) returns (v: nat)
    requires q.Proper()
    modifies samples
    ensures v == Percentile(old(samples[..]), q)
    ensures samples[..] == Sorted(old(samples[..]))
  {
    if samples.Length == 0 {
      return 0;
    }
    ghost var was := samples[..];
    assert was == samples[..samples.Length];
    SortPrefix(samples, samples.Length);
    assert samples[..] == samples[..samples.Length] == Sorted(was);
    Ceiling(q, samples.Length);
    var rank := Larger(CeilDiv(samples.Length * q.num, q.den), 1);
    assert rank == CeilOf(q, |was|);
    v := samples[Smaller(rank - 1, samples.Length - 1)];
  }
}
