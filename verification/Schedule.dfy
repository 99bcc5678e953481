/** The generator's absolute deadlines: integer microseconds, computed in 64-bit unsigned arithmetic. */
module Schedule {
  import opened Arithmetic

  const SECOND: nat := 1_000_000
  const WRAP: nat := 0x1_0000_0000_0000_0000

  /** Offset of deadline k from the start: the exact schedule. */
  function Exact(k: nat, rate: nat): nat
    requires rate > 0
  {
    k * SECOND / rate
  }

  /** What the firmware computes: `start_us + index * 1000000ULL / rate`. */
  function Deadline(start: nat, k: nat, rate: nat): nat
    requires rate > 0
  {
    Unsigned(start + Unsigned(k * SECOND) / rate)
  }

  /** A natural number as an unsigned 64-bit value. */
  function Unsigned(x: nat): nat {
    x % WRAP
  }

  /** The schedule does not drift: deadline k is never later than the exact instant k/rate and less than
      one microsecond earlier. */
  lemma NoDrift(k: nat, rate: nat)
    requires rate > 0
    ensures rate * Exact(k, rate) <= k * SECOND < rate * (Exact(k, rate) + 1)
  {
    Quotient(k * SECOND, rate);
    assert rate * (Exact(k, rate) + 1) == rate * Exact(k, rate) + rate;
  }

  lemma Ordered(j: nat, k: nat, rate: nat)
    requires rate > 0 && j <= k
    ensures Exact(j, rate) <= Exact(k, rate)
  {
    NoDrift(j, rate);
    QuotientBelow(k * SECOND, rate, Exact(j, rate));
  }

  /** Consecutive deadlines are at most the rounded-up period apart, so never more than a second. */
  lemma Spacing(k: nat, rate: nat)
    requires rate > 0
    ensures Exact(k, rate) <= Exact(k + 1, rate) <= Exact(k, rate) + CeilDiv(SECOND, rate)
    ensures CeilDiv(SECOND, rate) <= SECOND
  {
    Ordered(k, k + 1, rate);
    var period := CeilDiv(SECOND, rate);
    Quotient(SECOND + rate - 1, rate);
    NoDrift(k, rate);
    var bound := Exact(k, rate) + period + 1;
    assert rate * bound == rate * (Exact(k, rate) + 1) + rate * period;
    QuotientBelow((k + 1) * SECOND, rate, bound);
    QuotientBelow(SECOND + rate - 1, rate, SECOND + 1);
    assert rate * (SECOND + 1) == rate * SECOND + rate;
    Scaled(SECOND, 1, rate);
  }

  /** A deadline that falls inside the measurement interval has an index below the rounded-up number of
      periods in it. */
  lemma IndexBound(k: nat, rate: nat, duration: nat)
    requires rate > 0 && Exact(k, rate) < duration
    ensures k < CeilDiv(duration * rate, SECOND)
  {
    NoDrift(k, rate);
    Scaled(rate, Exact(k, rate) + 1, duration);
    assert k * SECOND < duration * rate;
    var total := duration * rate;
    QuotientBelow(total + SECOND - 1, SECOND, k + 1);
  }

  /** The 64-bit product is the true one exactly below 2^64, and only then is the deadline exact. */
  lemma ExactUnlessWrapped(start: nat, k: nat, rate: nat)
    requires 0 < rate <= WRAP && start + Exact(k, rate) < WRAP
    ensures Deadline(start, k, rate) == start + Exact(k, rate) <==> k * SECOND < WRAP
  {
    var x := k * SECOND;
    WrappedIsShort(x, rate);
    SameSum(start, Unsigned(x) / rate, x / rate, x < WRAP);
  }

  lemma SameSum(start: nat, offset: nat, exact: nat, fits: bool)
    requires start + exact < WRAP && (if fits then offset == exact else offset < exact)
    ensures Unsigned(start + offset) == start + exact <==> fits
  {
    Fits(start + offset);
  }

  lemma Fits(x: nat)
    ensures x < WRAP ==> Unsigned(x) == x
    ensures x >= WRAP ==> Unsigned(x) + WRAP <= x
  {}

  lemma WrappedIsShort(x: nat, rate: nat)
    requires 0 < rate <= WRAP
    ensures x < WRAP ==> Unsigned(x) / rate == x / rate
    ensures x >= WRAP ==> Unsigned(x) / rate < x / rate
  {
    Fits(x);
    if x >= WRAP {
      var y := Unsigned(x);
      Quotient(y, rate);
      Distribute(rate, y / rate);
      QuotientBelow(x, rate, y / rate + 1);
    }
  }

  /** While `duration * rate + 10^6 <= 2^64`, no product computed for a deadline inside the interval, or
      for the one after it, wraps. */
  lemma NoWrap(k: nat, rate: nat, duration: nat)
    requires rate > 0 && duration * rate + SECOND <= WRAP
    requires k <= CeilDiv(duration * rate, SECOND)
    ensures k * SECOND < WRAP
  {
    Quotient(duration * rate + SECOND - 1, SECOND);
    Scaled(SECOND, k, CeilDiv(duration * rate, SECOND));
  }
}
