/** Bytes as sets of bits. */
module Bits {
  /** Some bit of `mask` is set. */
  predicate Has(byte: bv8, mask: bv8) {
    byte & mask != 0
  }

  function Or(x: bv8, y: bv8): bv8 {
    x | y
  }

  function Without(x: bv8, y: bv8): bv8 {
    x & !y
  }

  function If(on: bool, mask: bv8): bv8 {
    if on then mask else 0
  }

  lemma HasOr(x: bv8, y: bv8, mask: bv8)
    ensures Has(Or(x, y), mask) <==> Has(x, mask) || Has(y, mask)
  {
  }

  lemma HasIf(on: bool, x: bv8, mask: bv8)
    ensures Has(If(on, x), mask) <==> on && Has(x, mask)
  {
  }

  lemma OrZero(x: bv8)
    ensures Or(0, x) == x && Or(x, 0) == x
  {
  }

  /** Setting or clearing `y` keeps `x` clear of `mask`, if `y` is. */
  lemma StaysClear(x: bv8, y: bv8, mask: bv8)
    requires !Has(x, mask) && !Has(y, mask)
    ensures !Has(Or(x, y), mask) && !Has(Without(x, y), mask)
  {
  }
}
