/** Division, rounding up, and comparing products: the integer arithmetic the other modules share. */
module Arithmetic {

  function SaturatingSub(a: int, b: int): int {
    if a > b then a - b else 0
  }

  function CeilDiv(a: nat, b: nat): nat
    requires b > 0
  {
    (a + b - 1) / b
  }

  lemma Quotient(a: nat, b: nat)
    requires b > 0
    ensures b * (a / b) <= a < b * (a / b) + b
  {}

  lemma QuotientBelow(a: nat, b: nat, q: nat)
    requires b > 0
    ensures a < b * q ==> a / b < q
    ensures b * q <= a ==> q <= a / b
  {
    Quotient(a, b);
    Between(a, b, a / b, q);
  }

  lemma Between(a: nat, b: nat, p: nat, q: nat)
    requires b > 0 && b * p <= a < b * p + b
    ensures a < b * q ==> p < q
    ensures b * q <= a ==> q <= p
  {
    Scaled(b, p, q);
    Scaled(b, q, p + 1);
    Distribute(b, p);
  }

  lemma Distribute(b: nat, p: nat)
    ensures b * (p + 1) == b * p + b
  {}

  lemma Scaled(b: nat, x: nat, y: nat)
    ensures x <= y ==> b * x <= b * y
    ensures b > 0 && b * x < b * y ==> x < y
  {
    if x <= y {
      assert b * y == b * x + b * (y - x);
    } else {
      assert b * x == b * y + b * (x - y);
    }
  }

  lemma StrictlyScaled(b: nat, x: nat, y: nat)
    requires b > 0 && x < y
    ensures b * x < b * y
  {
    assert b * y == b * x + b * (y - x);
    Scaled(b, 1, y - x);
  }

  lemma DivMod(x: nat, n: nat, q: nat, r: nat)
    requires r < n && x == n * q + r
    ensures x / n == q && x % n == r
  {
    Between(x, n, q, x / n);
    Quotient(x, n);
    Between(x, n, x / n, q);
    Between(x, n, q, q);
    Scaled(n, x / n, q);
    Uniquely(x, n, x / n, q);
  }

  lemma Uniquely(x: nat, n: nat, p: nat, q: nat)
    requires n * p <= x < n * p + n && n * q <= x < n * q + n
    ensures p == q
  {
    Distribute(n, p);
    Distribute(n, q);
    Scaled(n, p + 1, q);
    Scaled(n, q + 1, p);
  }

  lemma ScaledQuotient(a: nat, b: nat, q: nat, n: nat)
    requires n > 0 && b * q <= a < b * q + b
    ensures (b * n) * q <= a * n < (b * n) * q + b * n
  {
    var p := b * q;
    Regroup(b, q, n);
    Scaled(n, p, a);
    StrictlyScaled(n, a, p + b);
    assert n * (p + b) == n * p + n * b;
  }

  /** What is left of x after taking n as often as it goes. */
  function Remainder(x: nat, n: nat): (r: nat)
    requires n > 0
    ensures r < n
  {
    if x < n then x else Remainder(x - n, n)
  }

  lemma {:induction false} RemainderIsModulo(x: nat, n: nat)
    requires n > 0
    ensures Remainder(x, n) == x % n
  {
    if x < n {
      DivMod(x, n, 0, x);
    } else {
      RemainderIsModulo(x - n, n);
      Quotient(x - n, n);
      var q, r := (x - n) / n, (x - n) % n;
      Distribute(n, q);
      DivMod(x, n, q + 1, r);
    }
  }

  lemma QuotientIs(x: nat, m: nat, q: nat)
    requires m > 0 && m * q <= x < m * q + m
    ensures x / m == q
  {
    Quotient(x, m);
    Uniquely(x, m, q, x / m);
  }

  lemma Positive(b: nat, n: nat)
    requires b > 0 && n > 0
    ensures b * n > 0
  {
    StrictlyScaled(b, 0, n);
  }

  /** A common factor cancels. */
  lemma CancelFactor(a: nat, b: nat, n: nat)
    requires b > 0 && n > 0
    ensures b * n > 0 && (a * n) / (b * n) == a / b
  {
    Positive(b, n);
    Quotient(a, b);
    var q := a / b;
    ScaledQuotient(a, b, q, n);
    QuotientIs(a * n, b * n, q);
  }

  lemma CeilBounds(a: nat, b: nat)
    requires b > 0
    ensures a <= b * CeilDiv(a, b) < a + b
  {
    Quotient(a + b - 1, b);
  }

  lemma Regroup(a: int, b: int, c: int)
    ensures (a * b) * c == (a * c) * b == (b * c) * a
  {}
}
