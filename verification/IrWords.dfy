/** The number that a decoder shifts together out of the bits that a sender shifted out of a word. */
module IrWords {
  import opened Arithmetic
  import opened IrSenders

  /** The bits `bs` shifted into `acc`, one after the other. */
  function ShiftedIn(acc: nat, bs: seq<bool>, modulus: nat): nat
    requires modulus > 0
    decreases |bs|
  {
    if bs == [] then acc else ShiftedIn((acc * 2 + Bit(bs[0])) % modulus, bs[1..], modulus)
  }

  lemma {:induction false} ShiftedInConcat(acc: nat, a: seq<bool>, b: seq<bool>, modulus: nat)
    requires modulus > 0
    ensures ShiftedIn(acc, a + b, modulus) == ShiftedIn(ShiftedIn(acc, a, modulus), b, modulus)
    decreases |a|
  {
    if a == [] {
      assert a + b == b;
    } else {
      assert (a + b)[1..] == a[1..] + b;
      ShiftedInConcat((acc * 2 + Bit(a[0])) % modulus, a[1..], b, modulus);
    }
  }

  lemma DivideOut(a: nat, b: nat, q: nat)
    requires q > 0 && b * q <= a
    ensures (a - b * q) / q == a / q - b
  {
    var d, r := a / q, a % q;
    assert a - b * q == (d - b) * q + r;
    QuotientIs(a - b * q, q, d - b, r);
  }

  lemma HalveBoth(a: nat, q: nat)
    requires q > 0
    ensures 2 * a / (2 * q) == a / q
  {
    var d, r := a / q, a % q;
    assert 2 * a == d * (2 * q) + 2 * r;
    QuotientIs(2 * a, 2 * q, d, 2 * r);
  }

  /** One bit off the top of a 32-bit word. */
  lemma TopBitOff(data: nat, p: nat, q: nat)
    requires data < WORD32 && p > 0 && q > 0 && p * (2 * q) == WORD32
    ensures (data * 2 % WORD32) / (2 * q) == data / q - Bit(data % WORD32 >= TOPBIT) * p
  {
    HalveBoth(data, q);
    if data >= TOPBIT {
      assert data * 2 % WORD32 == 2 * data - p * (2 * q);
      DivideOut(2 * data, p, 2 * q);
    } else {
      assert data * 2 % WORD32 == 2 * data;
    }
  }

  lemma ShiftedInFirst(acc: nat, bs: seq<bool>, modulus: nat)
    requires bs != [] && acc * 2 + 1 < modulus
    ensures ShiftedIn(acc, bs, modulus) == ShiftedIn(acc * 2 + Bit(bs[0]), bs[1..], modulus)
  {
    SmallMod(acc * 2 + Bit(bs[0]), modulus);
  }

  /** The number that the top `n` bits of a word make. */
  function Top(data: nat, n: nat): int
    requires n <= 32
  {
    Pow2Positive(32 - n);
    data / Pow2(32 - n)
  }

  lemma NoTop(data: nat)
    requires data < WORD32
    ensures Top(data, 0) == 0
  {
    Pow2Powers();
  }

  lemma TopFirst(data: nat, n: nat)
    requires data < WORD32 && 0 < n <= 32
    ensures Top(data, n) == Bit(data % WORD32 >= TOPBIT) * Pow2(n - 1) + Top(data * 2 % WORD32, n - 1)
  {
    Pow2Powers();
    hide Pow2;
    Pow2Positive(32 - n);
    Pow2Positive(n - 1);
    Pow2Step(32 - n);
    Pow2Add(n - 1, 33 - n);
    TopBitOff(data, Pow2(n - 1), Pow2(32 - n));
  }

  /** The top `n` bits of a word, shifted in below `acc`. */
  lemma {:induction false} TopBitsShiftedIn(acc: nat, data: nat, n: nat, k: nat, modulus: nat)
    requires data < WORD32 && n <= 32 && acc < Pow2(k) && Pow2(k + n) <= modulus
    ensures modulus > 0
    ensures ShiftedIn(acc, TopBits(data, n), modulus) == acc * Pow2(n) + Top(data, n)
    decreases n
  {
    Pow2Positive(k + n);
    if n == 0 {
      NoTop(data);
    } else {
      hide Pow2, ShiftedIn, TopBits, Top;
      var b, data' := data % WORD32 >= TOPBIT, data * 2 % WORD32;
      Pow2Step(k);
      Pow2Monotone(k + 1, k + n);
      TopBitsFirst(data, n);
      ShiftedInFirst(acc, TopBits(data, n), modulus);
      TopBitsShiftedIn(acc * 2 + Bit(b), data', n - 1, k + 1, modulus);
      TopFirst(data, n);
      Regroup(acc, Bit(b), Pow2(n - 1));
      Pow2Step(n - 1);
    }
  }

  lemma Regroup(acc: nat, b: nat, p: nat)
    ensures (acc * 2 + b) * p == acc * (2 * p) + b * p
  {
  }

  /** A word that was shifted to the top first loses what is above its `n` low bits. */
  lemma ShiftedToTop(data: nat, n: nat)
    requires n <= 32
    ensures Pow2(n) > 0
    ensures Top(ShiftLeft(data, 32 - n), n) == data % Pow2(n)
  {
    Pow2Powers();
    Pow2Add(n, 32 - n);
    Pow2Positive(n);
    Pow2Positive(32 - n);
    ModThenDivide(data, Pow2(32 - n), Pow2(n));
  }

  lemma ModThenDivide(data: nat, a: nat, b: nat)
    requires a > 0 && b > 0
    ensures b * a > 0 && data * a % (b * a) / a == data % b
  {
    var q, r := data / b, data % b;
    Spread(data, q, b, r, a);
    Difference(b, r, a);
    AtLeastOnce(b - r, a);
    Positive(a, b);
    QuotientIs(data * a, b * a, q, r * a);
    QuotientIs(r * a, a, r, 0);
  }

  lemma Spread(data: nat, q: nat, b: nat, r: nat, a: nat)
    requires data == q * b + r
    ensures data * a == q * (b * a) + r * a
  {
    Associate(q, b, a);
  }

  lemma Positive(a: nat, b: nat)
    requires a > 0 && b > 0
    ensures a * b > 0 && b * a > 0
  {
  }

  /** What the decoder gets out of the low `n` bits of `data`, sent from the top. */
  lemma LowBitsReceived(data: nat, n: nat)
    requires n <= 32
    ensures Pow2(n) > 0
    ensures ShiftedIn(0, TopBits(ShiftLeft(data, 32 - n), n), WORD32) == data % Pow2(n)
  {
    hide Pow2, ShiftedIn, TopBits, Top;
    ShiftedToTop(data, n);
    Pow2Powers();
    Pow2Monotone(n, 32);
    OnePow2();
    TopBitsShiftedIn(0, ShiftLeft(data, 32 - n), n, 0, WORD32);
  }

  /** A whole word sent from the top. */
  lemma WordReceived(data: nat)
    requires data < WORD32
    ensures ShiftedIn(0, TopBits(data, 32), WORD32) == data
  {
    Pow2Powers();
    OnePow2();
    assert Top(data, 32) == data;
    TopBitsShiftedIn(0, data, 32, 0, WORD32);
  }

  /** An address of 16 bits and a word of 32. */
  lemma AddressAndWordReceived(address: nat, data: nat)
    requires address < 0x1_0000 && data < WORD32
    ensures ShiftedIn(0, TopBits(address * 0x1_0000, 16) + TopBits(data, 32), WORD64) == address * WORD32 + data
  {
    Pow2Powers();
    OnePow2();
    TopBitsShiftedIn(0, address * 0x1_0000, 16, 0, WORD64);
    assert Top(address * 0x1_0000, 16) == address && Top(data, 32) == data;
    TopBitsShiftedIn(address, data, 32, 16, WORD64);
    ShiftedInConcat(0, TopBits(address * 0x1_0000, 16), TopBits(data, 32), WORD64);
  }

  // ---- the same, digit by digit ----

  lemma TopBitIsDigit(data: nat)
    ensures data % WORD32 >= TOPBIT <==> Digit(data, 31)
  {
    Pow2Powers();
    Pow2Step(31);
    hide Pow2;
    var v := data % WORD32;
    DigitOfRemainder(data, 32, 31);
    if v >= TOPBIT {
      QuotientIs(v, TOPBIT, 1, v - TOPBIT);
    } else {
      QuotientIs(v, TOPBIT, 0, v);
    }
  }

  /** A 32-bit word doubled has every digit one place higher. */
  lemma DoubledDigit(data: nat, k: nat)
    requires k < 31
    ensures Digit(data * 2 % WORD32, k + 1) <==> Digit(data, k)
  {
    Pow2Powers();
    hide Pow2, Digit;
    DigitOfRemainder(data * 2, 32, k + 1);
    DigitAbove(data * 2, k);
    assert data * 2 / 2 == data;
  }

  /** What is sent from the top of a word are its binary digits, from digit 31 downwards. */
  lemma {:induction false} TopBitsAreDigits(data: nat, n: nat, i: nat)
    requires i < n <= 32
    ensures TopBits(data, n)[i] <==> Digit(data, 31 - i)
    decreases n
  {
    hide Digit, TopBits;
    TopBitsFirst(data, n);
    if i == 0 {
      TopBitIsDigit(data);
    } else {
      TopBitsAreDigits(data * 2 % WORD32, n - 1, i - 1);
      DoubledDigit(data, 31 - i);
      assert TopBits(data, n)[i] == TopBits(data, n)[1..][i - 1];
    }
  }

  /** What is sent of a word shifted to the top first are its `n` lowest digits, from digit n - 1 downwards. */
  lemma LowBitsAreDigits(data: nat, n: nat, i: nat)
    requires i < n <= 32
    ensures TopBits(ShiftLeft(data, 32 - n), n)[i] <==> Digit(data, n - 1 - i)
  {
    Pow2Powers();
    hide Digit, TopBits, Pow2;
    TopBitsAreDigits(ShiftLeft(data, 32 - n), n, i);
    DigitOfRemainder(data * Pow2(32 - n), 32, 31 - i);
    DigitShifted(data, 32 - n, n - 1 - i);
  }

  /** The binary digits of `v` are the last ones of `bits`, as many as fit `m`; the last bit is the lowest digit. */
  predicate Spells(v: nat, bits: seq<bool>, m: nat) {
    v < Pow2(m) && forall k: nat | k < m :: Digit(v, k) <==> (k < |bits| && bits[|bits| - 1 - k])
  }

  lemma SpellsNothing(m: nat)
    ensures Spells(0, [], m)
  {
    forall k: nat | k < m ensures !Digit(0, k) {
      QuotientIs(0, Pow2(k), 0, 0);
    }
  }

  /** One more bit is shifted in. */
  lemma SpellsSnoc(v: nat, bits: seq<bool>, m: nat, one: bool)
    requires Spells(v, bits, m)
    ensures Spells((v * 2 + Bit(one)) % Pow2(m), bits + [one], m)
  {
    var w := v * 2 + Bit(one);
    hide Digit, Pow2, Bit;
    forall k: nat | k < m
      ensures Digit(w % Pow2(m), k) <==> (k <= |bits| && (bits + [one])[|bits| - k])
    {
      DigitOfRemainder(w, m, k);
      DigitSnoc(v, one, if k == 0 then 0 else k - 1);
    }
  }

  lemma ShiftedInSnoc(bits: seq<bool>, one: bool, modulus: nat)
    requires modulus > 0
    ensures ShiftedIn(0, bits + [one], modulus) == (ShiftedIn(0, bits, modulus) * 2 + Bit(one)) % modulus
  {
    ShiftedInConcat(0, bits, [one], modulus);
    assert [one][1..] == [];
  }

  /** The number shifted together out of `bits`, digit by digit. */
  lemma {:induction false} ShiftedInSpells(bits: seq<bool>, m: nat)
    ensures Spells(ShiftedIn(0, bits, Pow2(m)), bits, m)
    decreases |bits|
  {
    hide Spells, Pow2, Bit;
    if bits == [] {
      SpellsNothing(m);
    } else {
      var init, one := bits[..|bits| - 1], bits[|bits| - 1];
      assert bits == init + [one];
      ShiftedInSpells(init, m);
      ShiftedInSnoc(init, one, Pow2(m));
      SpellsSnoc(ShiftedIn(0, init, Pow2(m)), init, m, one);
    }
  }

  /** There is no other number with these digits. */
  lemma SpellsTell(v: nat, bits: seq<bool>, m: nat)
    ensures Spells(v, bits, m) <==> v == ShiftedIn(0, bits, Pow2(m))
  {
    ShiftedInSpells(bits, m);
    hide Pow2, Digit;
    if Spells(v, bits, m) {
      DigitsTell(v, ShiftedIn(0, bits, Pow2(m)), m);
    }
  }
}
