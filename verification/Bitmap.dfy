/** The unsigned 64-bit word behind a receive window, and what its bits are after the
    shift, mask and set operations of the window code. A word is a natural number below
    2^64; the bitwise operators are defined digit by digit. */
module Bitmap {

  function Pow2(k: nat): (p: nat)
    ensures p > 0
  {
    if k == 0 then 1 else 2 * Pow2(k - 1)
  }

  type word = m: nat | m < 0x1_0000_0000_0000_0000 witness 0

  lemma WordSize()
    ensures Pow2(64) == 0x1_0000_0000_0000_0000
  {
    assert Pow2(8) == 0x100;
    assert Pow2(16) == 0x1_0000;
    assert Pow2(24) == 0x100_0000;
    assert Pow2(32) == 0x1_0000_0000;
    assert Pow2(40) == 0x100_0000_0000;
    assert Pow2(48) == 0x1_0000_0000_0000;
    assert Pow2(56) == 0x100_0000_0000_0000;
  }

  /** Bit i, counting from the least significant one. */
  predicate Bit(m: nat, i: nat) {
    if i == 0 then m % 2 == 1 else Bit(m / 2, i - 1)
  }

  /** `m << d` in a word of w bits: what is pushed past the top is lost. */
  function ShiftIn(w: nat, m: nat, d: nat): nat
    decreases d
  {
    if d == 0 then m % Pow2(w) else ShiftIn(w, 2 * m, d - 1)
  }

  /** `m << d` on an unsigned 64-bit word. */
  function ShiftLeft(m: word, d: nat): word {
    WordSize();
    ShiftInBelow(64, m, d);
    ShiftIn(64, m, d)
  }

  /** `m | n` */
  function Or(m: nat, n: nat): nat {
    if m == 0 then n
    else if n == 0 then m
    else 2 * Or(m / 2, n / 2) + (if m % 2 == 1 || n % 2 == 1 then 1 else 0)
  }

  /** `m & n` */
  function And(m: nat, n: nat): nat {
    if m == 0 || n == 0 then 0
    else 2 * And(m / 2, n / 2) + (if m % 2 == 1 && n % 2 == 1 then 1 else 0)
  }

  // ----- reading the digits back -----

  lemma {:induction false} BitZero(i: nat)
    ensures !Bit(0, i)
  {
    if i > 0 {
      BitZero(i - 1);
    }
  }

  lemma BitOne(i: nat)
    ensures Bit(1, i) <==> i == 0
  {
    if i > 0 {
      BitZero(i - 1);
    }
  }

  lemma {:induction false} BitOr(m: nat, n: nat, i: nat)
    ensures Bit(Or(m, n), i) <==> Bit(m, i) || Bit(n, i)
  {
    if m == 0 || n == 0 {
      BitZero(i);
    } else if i > 0 {
      BitOr(m / 2, n / 2, i - 1);
    }
  }

  lemma {:induction false} BitAnd(m: nat, n: nat, i: nat)
    ensures Bit(And(m, n), i) <==> Bit(m, i) && Bit(n, i)
  {
    if m == 0 || n == 0 {
      BitZero(i);
    } else if i > 0 {
      BitAnd(m / 2, n / 2, i - 1);
    }
  }

  lemma {:induction false} SomeBit(m: nat) returns (i: nat)
    requires m != 0
    ensures Bit(m, i)
  {
    if m % 2 == 1 {
      i := 0;
    } else {
      var j := SomeBit(m / 2);
      i := j + 1;
    }
  }

  lemma {:induction false} OrStaysBelow(m: nat, n: nat, k: nat)
    requires m < Pow2(k) && n < Pow2(k)
    ensures Or(m, n) < Pow2(k)
  {
    if m != 0 && n != 0 {
      OrStaysBelow(m / 2, n / 2, k - 1);
    }
  }

  // ----- shifting -----

  lemma Multiple(p: nat, k: int)
    ensures k >= 1 ==> p * k >= p
    ensures k <= -1 ==> p * k + p <= 0
  {}

  lemma Remainder(q: nat, r: nat, p: nat)
    requires r < p
    ensures (p * q + r) % p == r
  {
    Multiple(p, q);
    var x := p * q + r;
    var k := q - x / p;
    assert p * k == x % p - r;
    Multiple(p, k);
  }

  lemma Divide(m: nat, p: nat) returns (q: nat, r: nat)
    requires p > 0
    ensures r < p && r == m % p && m == p * q + r
  {
    q, r := m / p, m % p;
  }

  lemma HalfOfRemainder(m: nat, p: nat)
    requires p > 0
    ensures m % (2 * p) / 2 == m / 2 % p
    ensures m % (2 * p) % 2 == m % 2
  {
    var q, r := Divide(m, 2 * p);
    DoubleProduct(p, q);
    HalfOf(m, p * q, r);
    Remainder(q, r / 2, p);
  }

  lemma DoubleProduct(p: int, q: int)
    ensures (2 * p) * q == 2 * (p * q)
  {}

  lemma HalfOf(m: nat, h: int, r: nat)
    requires m == 2 * h + r
    ensures m / 2 == h + r / 2 && m % 2 == r % 2
  {}

  /** Cutting a number to its low k digits keeps those digits and no others. */
  lemma {:induction false} BitRemainder(m: nat, k: nat, i: nat)
    ensures Bit(m % Pow2(k), i) <==> i < k && Bit(m, i)
  {
    if k == 0 {
      BitZero(i);
    } else {
      HalfOfRemainder(m, Pow2(k - 1));
      if i > 0 {
        BitRemainder(m / 2, k - 1, i - 1);
      }
    }
  }

  lemma {:induction false} ShiftInBelow(w: nat, m: nat, d: nat)
    ensures ShiftIn(w, m, d) < Pow2(w)
    decreases d
  {
    if d > 0 {
      ShiftInBelow(w, 2 * m, d - 1);
    }
  }

  /** Shifting by d moves every bit below w - d up by d and clears the low d bits. */
  lemma {:induction false} BitShift(w: nat, m: nat, d: nat, i: nat)
    ensures Bit(ShiftIn(w, m, d), i) <==> d <= i < w && Bit(m, i - d)
    decreases d
  {
    if d == 0 {
      BitRemainder(m, w, i);
    } else {
      BitShift(w, 2 * m, d - 1, i);
      if i >= d - 1 {
        BitDouble(m, i - (d - 1));
      }
    }
  }

  lemma BitDouble(m: nat, i: nat)
    ensures Bit(2 * m, i) <==> 1 <= i && Bit(m, i - 1)
  {
    assert 2 * m / 2 == m;
  }

  // ----- the three operations of the window code -----

  /** `(m << d) | 1` */
  function SlideUp(m: word, d: nat): word {
    WordSize();
    OrStaysBelow(ShiftLeft(m, d), 1, 64);
    Or(ShiftLeft(m, d), 1)
  }

  /** `m | (1 << d)` */
  function SetBit(m: word, d: nat): word {
    WordSize();
    OrStaysBelow(m, ShiftLeft(1, d), 64);
    Or(m, ShiftLeft(1, d))
  }

  /** `m & (1 << d)` as a truth value */
  predicate TestBit(m: word, d: nat) {
    And(m, ShiftLeft(1, d)) != 0
  }

  /** Sliding a window up by d marks bit 0 and moves every other bit up by d. */
  lemma Slide(m: word, d: nat, i: nat)
    requires 1 <= d && i < 64
    ensures Bit(SlideUp(m, d), i) <==> i == 0 || (i >= d && Bit(m, i - d))
  {
    BitOr(ShiftLeft(m, d), 1, i);
    BitShift(64, m, d, i);
    BitOne(i);
  }

  lemma MaskBit(d: nat, i: nat)
    requires d < 64
    ensures Bit(ShiftLeft(1, d), i) <==> i == d
  {
    BitShift(64, 1, d, i);
    if i >= d {
      BitOne(i - d);
    }
  }

  /** Or-ing in a one-bit mask sets that bit and no other. */
  lemma Mark(m: word, d: nat, i: nat)
    requires d < 64
    ensures Bit(SetBit(m, d), i) <==> i == d || Bit(m, i)
  {
    BitOr(m, ShiftLeft(1, d), i);
    MaskBit(d, i);
  }

  /** A mask test reads the bit the mask stands for. */
  lemma TestMask(m: word, d: nat)
    requires d < 64
    ensures TestBit(m, d) <==> Bit(m, d)
  {
    BitAnd(m, ShiftLeft(1, d), d);
    MaskBit(d, d);
    if TestBit(m, d) {
      var i := SomeBit(And(m, ShiftLeft(1, d)));
      BitAnd(m, ShiftLeft(1, d), i);
      MaskBit(d, i);
    } else {
      BitZero(d);
    }
  }
}
