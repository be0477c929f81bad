/** Machine words, powers of two and quotients. */
module Arithmetic {
  const WORD16 := 0x1_0000
  const WORD32 := 0x1_0000_0000
  const WORD64 := 0x1_0000_0000_0000_0000

  type Byte = b: nat | b < 256

  function Bit(one: bool): nat {
    if one then 1 else 0
  }

  function Pow2(n: nat): (p: nat)
    ensures p > 0
  {
    if n == 0 then 1 else 2 * Pow2(n - 1)
  }

  /** Binary digit number `k` of `v`, the lowest being number 0. */
  predicate Digit(v: nat, k: nat) {
    v / Pow2(k) % 2 == 1
  }

  lemma OnePow2()
    ensures Pow2(0) == 1
  {
  }

  lemma Pow2Step(n: nat)
    ensures Pow2(n + 1) == 2 * Pow2(n)
  {
  }

  lemma FirstPowers()
    ensures Pow2(0) == 1 && Pow2(1) == 2 && Pow2(2) == 4 && Pow2(3) == 8
    ensures Pow2(4) == 16 && Pow2(5) == 32 && Pow2(6) == 64 && Pow2(7) == 128
  {
    assert Pow2(3) == 8;
    Pow2Add(3, 1);
    Pow2Add(3, 2);
    Pow2Add(3, 3);
    Pow2Add(3, 4);
  }

  lemma SmallMod(a: nat, m: nat)
    requires a < m
    ensures a % m == a
  {
  }

  lemma {:induction false} Pow2Positive(n: nat)
    ensures Pow2(n) > 0
  {
    if n > 0 {
      Pow2Positive(n - 1);
    }
  }

  lemma {:induction false} Pow2Add(m: nat, n: nat)
    ensures Pow2(m + n) == Pow2(m) * Pow2(n)
    decreases m
  {
    if m > 0 {
      Pow2Add(m - 1, n);
      Associate(2, Pow2(m - 1), Pow2(n));
    }
  }

  lemma Associate(a: nat, b: nat, c: nat)
    ensures a * (b * c) == (a * b) * c
  {
  }

  lemma Pow2Powers()
    ensures Pow2(8) == 0x100 && Pow2(16) == 0x1_0000 && Pow2(32) == WORD32 && Pow2(48) == 0x1_0000_0000_0000
  {
    assert Pow2(4) == 16;
    Pow2Add(4, 4);
    Pow2Add(8, 8);
    Pow2Add(16, 16);
    Pow2Add(32, 16);
  }

  lemma {:induction false} Pow2Monotone(m: nat, n: nat)
    requires m <= n
    ensures Pow2(m) <= Pow2(n)
    decreases n
  {
    if m < n {
      Pow2Monotone(m, n - 1);
      Pow2Positive(n - 1);
    }
  }

  lemma QuotientIs(a: int, q: nat, d: int, r: nat)
    requires q > 0 && a == d * q + r && r < q
    ensures a / q == d && a % q == r
  {
    var d', r' := a / q, a % q;
    Difference(d, d', q);
    if d' < d {
      AtLeastOnce(d - d', q);
    } else if d < d' {
      AtLeastOnce(d' - d, q);
      Difference(d', d, q);
    }
  }

  lemma Difference(d: int, d': int, q: int)
    ensures (d - d') * q == d * q - d' * q
  {
  }

  lemma AtLeastOnce(d: int, q: nat)
    requires d >= 1
    ensures d * q >= q
  {
    Difference(d, 1, q);
    assert (d - 1) * q >= 0;
  }

  // ---- binary digits ----

  lemma LowestDigit(v: nat)
    ensures Digit(v, 0) <==> v % 2 == 1
  {
    OnePow2();
    hide Pow2;
    QuotientIs(v, 1, v, 0);
  }

  /** Dividing by two takes the lowest digit off. */
  lemma DigitAbove(v: nat, k: nat)
    ensures Digit(v, k + 1) <==> Digit(v / 2, k)
  {
    Pow2Step(k);
    hide Pow2;
    HalvedQuotient(v, Pow2(k));
  }

  lemma HalvedQuotient(v: nat, p: nat)
    requires p > 0
    ensures v / (2 * p) == v / 2 / p
  {
    var h, b := v / 2, v % 2;
    var q, r := h / p, h % p;
    assert v == 2 * h + b && h == q * p + r;
    TwiceProduct(q, p);
    QuotientIs(v, 2 * p, q, 2 * r + b);
  }

  lemma TwiceProduct(q: int, p: int)
    ensures q * (2 * p) == 2 * (q * p)
  {
  }

  /** A digit put in at the bottom. */
  lemma DigitSnoc(v: nat, one: bool, k: nat)
    ensures Digit(2 * v + Bit(one), 0) <==> one
    ensures Digit(2 * v + Bit(one), k + 1) <==> Digit(v, k)
  {
    hide Digit;
    LowestDigit(2 * v + Bit(one));
    DigitAbove(2 * v + Bit(one), k);
    QuotientIs(2 * v + Bit(one), 2, v, Bit(one));
  }

  /** A number below 2^n is told by its `n` digits. */
  lemma {:induction false} DigitsTell(v: nat, w: nat, n: nat)
    requires v < Pow2(n) && w < Pow2(n)
    requires forall k: nat :: k < n ==> (Digit(v, k) <==> Digit(w, k))
    ensures v == w
  {
    if n == 0 {
      OnePow2();
    } else {
      Pow2Step(n - 1);
      hide Pow2, Digit;
      LowestDigit(v);
      LowestDigit(w);
      forall k: nat | k < n - 1 ensures Digit(v / 2, k) <==> Digit(w / 2, k) {
        DigitAbove(v, k);
        DigitAbove(w, k);
      }
      DigitsTell(v / 2, w / 2, n - 1);
    }
  }

  /** Shifting to the left by `n` moves every digit up. */
  lemma {:induction false} DigitShifted(v: nat, n: nat, k: nat)
    ensures Digit(v * Pow2(n), k + n) <==> Digit(v, k)
  {
    if n == 0 {
      OnePow2();
    } else {
      Pow2Step(n - 1);
      hide Pow2, Digit;
      TwiceProduct(v, Pow2(n - 1));
      DigitAbove(v * Pow2(n), k + n - 1);
      DigitShifted(v, n - 1, k);
    }
  }

  /** The digits below `n` are those of the remainder modulo 2^n. */
  lemma {:induction false} DigitOfRemainder(v: nat, n: nat, k: nat)
    requires k < n
    ensures Digit(v % Pow2(n), k) <==> Digit(v, k)
  {
    Pow2Step(n - 1);
    hide Pow2, Digit;
    HalvedRemainder(v, Pow2(n - 1));
    if k == 0 {
      LowestDigit(v);
      LowestDigit(v % Pow2(n));
    } else {
      DigitAbove(v, k - 1);
      DigitAbove(v % Pow2(n), k - 1);
      DigitOfRemainder(v / 2, n - 1, k - 1);
    }
  }

  lemma HalvedRemainder(v: nat, p: nat)
    requires p > 0
    ensures v % (2 * p) / 2 == v / 2 % p && v % (2 * p) % 2 == v % 2
  {
    var h, b := v / 2, v % 2;
    var q, r := h / p, h % p;
    assert v == 2 * h + b && h == q * p + r;
    TwiceProduct(q, p);
    QuotientIs(v, 2 * p, q, 2 * r + b);
  }
}
