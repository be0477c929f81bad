/** How the pins of a display hang on the outputs of an expander or a shift register, and what it sees there. */
module LcdWiring {
  import opened Arithmetic
  import opened Bits
  import opened Hd44780

  /** One output for each pin, as a mask. */
  datatype PinMap = PinMap(en: bv8, rw: bv8, rs: bv8, d4: bv8, d5: bv8, d6: bv8, d7: bv8)

  function Outputs(m: PinMap, backlight: bv8): seq<bv8> {
    [m.en, m.rw, m.rs, m.d4, m.d5, m.d6, m.d7, backlight]
  }

  /** Every pin has an output, which it shares with no other one and not with the backlight. */
  predicate Distinct(m: PinMap, backlight: bv8) {
    var o := Outputs(m, backlight);
    && (forall i | 0 <= i < 7 :: o[i] != 0)
    && (forall i, j | 0 <= i < j < 8 :: o[i] & o[j] == 0)
  }

  /** `1 << pin` in a byte. */
  function MaskOf(pin: nat): bv8 {
    if pin == 0 then 0x01 else if pin == 1 then 0x02 else if pin == 2 then 0x04 else if pin == 3 then 0x08
    else if pin == 4 then 0x10 else if pin == 5 then 0x20 else if pin == 6 then 0x40 else if pin == 7 then 0x80 else 0
  }

  /** Output number `pin` is worth 2^pin; there are eight of them. */
  lemma MaskIsPower(pin: nat)
    ensures MaskOf(pin) as int == if pin < 8 then Pow2(pin) else 0
  {
    FirstPowers();
    hide Pow2;
  }

  lemma MasksApart(p: nat, q: nat)
    requires p < 8
    ensures MaskOf(p) != 0 && (p != q ==> MaskOf(p) & MaskOf(q) == 0)
  {
  }

  /** The map of the pin numbers for Enable, Read/Write, Register Select and D4 to D7. */
  function MapOf(pins: seq<nat>): PinMap
    requires |pins| >= 7
  {
    PinMap(MaskOf(pins[0]), MaskOf(pins[1]), MaskOf(pins[2]), MaskOf(pins[3]), MaskOf(pins[4]), MaskOf(pins[5]), MaskOf(pins[6]))
  }

  predicate DifferentPins(pins: seq<nat>) {
    && |pins| == 8 && (forall i | 0 <= i < 7 :: pins[i] < 8)
    && (forall i, j | 0 <= i < j < 8 :: pins[i] != pins[j])
  }

  /** The default pins of the drivers are such a choice exactly if the backlight has an output beside theirs. */
  lemma DefaultPins(backlight: nat)
    ensures DifferentPins([6, 5, 4, 0, 1, 2, 3, backlight]) <==> backlight >= 7
    ensures DifferentPins([4, 5, 6, 0, 1, 2, 3, backlight]) <==> backlight >= 7
  {
    var expander, latch := [6, 5, 4, 0, 1, 2, 3, backlight], [4, 5, 6, 0, 1, 2, 3, backlight];
    assert expander[7] == latch[7] == backlight;
    if backlight < 7 {
      assert exists i :: 0 <= i < 7 && expander[i] == expander[7] by {
        assert expander[0] == 6 && expander[1] == 5 && expander[2] == 4 && expander[3] == 0;
        assert expander[4] == 1 && expander[5] == 2 && expander[6] == 3;
      }
      assert exists i :: 0 <= i < 7 && latch[i] == latch[7] by {
        assert latch[0] == 4 && latch[1] == 5 && latch[2] == 6 && latch[3] == 0;
        assert latch[4] == 1 && latch[5] == 2 && latch[6] == 3;
      }
    }
  }

  /** Seven different pin numbers, and an eighth for the backlight, which may be none of the expander's. */
  lemma DistinctPins(pins: seq<nat>)
    requires DifferentPins(pins)
    ensures Distinct(MapOf(pins), MaskOf(pins[7]))
  {
    hide MaskOf;
    var o := Outputs(MapOf(pins), MaskOf(pins[7]));
    assert forall i :: 0 <= i < 8 ==> o[i] == MaskOf(pins[i]);
    forall i | 0 <= i < 7 ensures o[i] != 0 {
      MasksApart(pins[i], pins[7]);
    }
    forall i, j | 0 <= i < j < 8 ensures o[i] & o[j] == 0 {
      MasksApart(pins[i], pins[j]);
    }
  }

  /** What the display sees on its pins when its Enable falls. */
  function Sample(m: PinMap, port: bv8): Strobe {
    Strobe(Has(port, m.rs), NibbleOf(Has(port, m.d4), Has(port, m.d5), Has(port, m.d6), Has(port, m.d7)))
  }

  function NibbleOf(a: bool, b: bool, c: bool, d: bool): bv8 {
    Or(Or(Or(If(a, 0x01), If(b, 0x02)), If(c, 0x04)), If(d, 0x08))
  }

  /** The outputs for a nibble. */
  function Mapped(m: PinMap, value: bv8): bv8 {
    Or(Or(Or(If(Has(value, 0x01), m.d4), If(Has(value, 0x02), m.d5)), If(Has(value, 0x04), m.d6)), If(Has(value, 0x08), m.d7))
  }

  lemma NibbleBits(value: bv8)
    ensures NibbleOf(Has(value, 0x01), Has(value, 0x02), Has(value, 0x04), Has(value, 0x08)) == value & 0x0F
  {
  }

  /** The outputs that a driver sets for a nibble, with Enable low. */
  function PortFor(m: PinMap, rs: bool, value: bv8, backlight: bv8): bv8 {
    Or(Mapped(m, value), Or(If(rs, m.rs), backlight))
  }

  lemma PortIs(m: PinMap, rs: bool, value: bv8, backlight: bv8)
    ensures PortFor(m, rs, value, backlight) == Or(Mapped(m, value), Or(If(rs, m.rs), backlight))
  {
  }

  lemma MappedHas(m: PinMap, value: bv8, output: bv8)
    ensures Has(Mapped(m, value), output) <==>
            || (Has(value, 0x01) && Has(m.d4, output)) || (Has(value, 0x02) && Has(m.d5, output))
            || (Has(value, 0x04) && Has(m.d6, output)) || (Has(value, 0x08) && Has(m.d7, output))
  {
    hide Has, If, Or;
    var a, b := If(Has(value, 0x01), m.d4), If(Has(value, 0x02), m.d5);
    var c, d := If(Has(value, 0x04), m.d6), If(Has(value, 0x08), m.d7);
    HasIf(Has(value, 0x01), m.d4, output);
    HasIf(Has(value, 0x02), m.d5, output);
    HasIf(Has(value, 0x04), m.d6, output);
    HasIf(Has(value, 0x08), m.d7, output);
    HasOr(a, b, output);
    HasOr(Or(a, b), c, output);
    HasOr(Or(Or(a, b), c), d, output);
  }

  lemma PortHas(m: PinMap, rs: bool, value: bv8, backlight: bv8, output: bv8)
    ensures Has(PortFor(m, rs, value, backlight), output) <==>
            || (Has(value, 0x01) && Has(m.d4, output)) || (Has(value, 0x02) && Has(m.d5, output))
            || (Has(value, 0x04) && Has(m.d6, output)) || (Has(value, 0x08) && Has(m.d7, output))
            || (rs && Has(m.rs, output)) || Has(backlight, output)
  {
    hide Has, If, Or, Mapped;
    MappedHas(m, value, output);
    HasIf(rs, m.rs, output);
    HasOr(If(rs, m.rs), backlight, output);
    HasOr(Mapped(m, value), Or(If(rs, m.rs), backlight), output);
  }

  lemma HasSelf(output: bv8, other: bv8)
    ensures Has(output, output) <==> output != 0
    ensures output & other == 0 <==> !Has(output, other)
    ensures Has(output, other) <==> Has(other, output)
  {
  }

  /** Every output of the map against every other one. */
  lemma OutputsApart(m: PinMap, backlight: bv8, i: nat, j: nat)
    requires Distinct(m, backlight) && i < 7 && j < 8
    ensures var o := Outputs(m, backlight);
            Has(o[j], o[i]) <==> i == j
  {
    hide Has;
    var o := Outputs(m, backlight);
    HasSelf(o[i], o[j]);
    HasSelf(o[j], o[i]);
    assert i < j ==> o[i] & o[j] == 0;
    assert j < i ==> o[j] & o[i] == 0;
  }

  /** Which of the pins is high in the port for a nibble. */
  predicate Shown(rs: bool, value: bv8, i: nat) {
    || (i == 2 && rs) || (i == 3 && Has(value, 0x01)) || (i == 4 && Has(value, 0x02))
    || (i == 5 && Has(value, 0x04)) || (i == 6 && Has(value, 0x08))
  }

  lemma PortShows(m: PinMap, rs: bool, value: bv8, backlight: bv8, i: nat)
    requires Distinct(m, backlight) && i < 7
    ensures Has(PortFor(m, rs, value, backlight), Outputs(m, backlight)[i]) <==> Shown(rs, value, i)
    ensures i > 0 ==> (Has(Or(PortFor(m, rs, value, backlight), m.en), Outputs(m, backlight)[i]) <==> Shown(rs, value, i))
  {
    hide Has, If, Or, PortFor, Distinct;
    var output := Outputs(m, backlight)[i];
    PortHas(m, rs, value, backlight, output);
    OutputsApart(m, backlight, i, 0);
    OutputsApart(m, backlight, i, 2);
    OutputsApart(m, backlight, i, 3);
    OutputsApart(m, backlight, i, 4);
    OutputsApart(m, backlight, i, 5);
    OutputsApart(m, backlight, i, 6);
    OutputsApart(m, backlight, i, 7);
    HasOr(PortFor(m, rs, value, backlight), m.en, output);
  }

  /** The outputs for a nibble, line by line: its lowest bit is on D4, its highest on D7, and Enable and Read/Write are low. */
  lemma PortLines(m: PinMap, rs: bool, value: bv8, backlight: bv8)
    requires Distinct(m, backlight)
    ensures var port := PortFor(m, rs, value, backlight);
            && (Has(port, m.d4) <==> Has(value, 0x01)) && (Has(port, m.d5) <==> Has(value, 0x02))
            && (Has(port, m.d6) <==> Has(value, 0x04)) && (Has(port, m.d7) <==> Has(value, 0x08))
            && (Has(port, m.rs) <==> rs) && !Has(port, m.en) && !Has(port, m.rw)
  {
    hide Has, PortFor, Distinct;
    PortShows(m, rs, value, backlight, 0);
    PortShows(m, rs, value, backlight, 1);
    PortShows(m, rs, value, backlight, 2);
    PortShows(m, rs, value, backlight, 3);
    PortShows(m, rs, value, backlight, 4);
    PortShows(m, rs, value, backlight, 5);
    PortShows(m, rs, value, backlight, 6);
  }

  /** The backlight's own output is high as long as the backlight is on. */
  lemma PortLit(m: PinMap, rs: bool, value: bv8, backlight: bv8)
    ensures Has(PortFor(m, rs, value, backlight), backlight) <==> backlight != 0
  {
    hide Or, Mapped;
    HasOr(If(rs, m.rs), backlight, backlight);
    HasOr(Mapped(m, value), Or(If(rs, m.rs), backlight), backlight);
    NoneOfNone(PortFor(m, rs, value, backlight));
    HasSelf(backlight, backlight);
  }

  lemma NoneOfNone(port: bv8)
    ensures !Has(port, 0)
  {
  }

  lemma EnableOnTop(port: bv8, en: bv8)
    requires en != 0 && !Has(port, en)
    ensures Has(Or(port, en), en) && Without(Or(port, en), en) == port && Without(port, en) == port
  {
    EnableSet(port, en);
    EnableCleared(port, en);
  }

  lemma EnableSet(port: bv8, en: bv8)
    requires en != 0
    ensures Has(Or(port, en), en)
  {
  }

  lemma EnableCleared(port: bv8, en: bv8)
    requires port & en == 0
    ensures Without(Or(port, en), en) == port && Without(port, en) == port
  {
    assert Without(port, en) == port;
    assert Without(Or(port, en), en) == Without(port, en);
  }

  lemma EnableNonzero(m: PinMap, backlight: bv8)
    requires Distinct(m, backlight)
    ensures m.en != 0 && !Has(backlight, m.en) && !Has(0, m.en)
  {
    assert Outputs(m, backlight)[0] != 0;
    OutputsApart(m, backlight, 0, 7);
  }

  lemma PortSampled(m: PinMap, rs: bool, value: bv8, backlight: bv8)
    requires Distinct(m, backlight)
    ensures var port := Or(PortFor(m, rs, value, backlight), m.en);
            !Has(port, m.rw) && Sample(m, port) == Strobe(rs, value & 0x0F)
  {
    hide Has, If, Or, PortFor, NibbleOf, Distinct;
    NibbleBits(value);
    PortShows(m, rs, value, backlight, 1);
    PortShows(m, rs, value, backlight, 2);
    PortShows(m, rs, value, backlight, 3);
    PortShows(m, rs, value, backlight, 4);
    PortShows(m, rs, value, backlight, 5);
    PortShows(m, rs, value, backlight, 6);
  }

  /** The display sees the nibble and the register that were mapped, as a write, whatever the backlight does. */
  lemma MappedIsSampled(m: PinMap, rs: bool, value: bv8, backlight: bv8)
    requires Distinct(m, backlight)
    ensures var port := PortFor(m, rs, value, backlight);
            && !Has(port, m.en) && Has(Or(port, m.en), m.en)
            && Without(Or(port, m.en), m.en) == port && Without(port, m.en) == port
            && !Has(Or(port, m.en), m.rw) && Sample(m, Or(port, m.en)) == Strobe(rs, value & 0x0F)
  {
    hide Has, Or, Without, PortFor, Sample, Distinct, Outputs;
    PortSampled(m, rs, value, backlight);
    EnableNonzero(m, backlight);
    EnableLow(m, rs, value, backlight);
    EnableOnTop(PortFor(m, rs, value, backlight), m.en);
  }

  lemma EnableLow(m: PinMap, rs: bool, value: bv8, backlight: bv8)
    requires Distinct(m, backlight)
    ensures !Has(PortFor(m, rs, value, backlight), m.en)
  {
    hide Has, Or, PortFor, Distinct;
    PortShows(m, rs, value, backlight, 0);
  }

  /** A backlight that is off shares its output with no pin either. */
  lemma OffIsDistinct(m: PinMap, backlight: bv8)
    requires Distinct(m, backlight)
    ensures Distinct(m, 0)
  {
    hide Has;
    var o, o' := Outputs(m, backlight), Outputs(m, 0);
    assert forall i :: 0 <= i < 7 ==> o'[i] == o[i];
    forall i | 0 <= i < 7 ensures o'[i] & o'[7] == 0 {
      NothingShared(o[i]);
    }
  }

  lemma NothingShared(a: bv8)
    ensures a & 0 == 0
  {
  }

  // ---- the loop that maps a nibble ----

  function Shifted(value: bv8, i: nat): bv8 {
    if i == 0 then value else Shifted(value, i - 1) >> 1
  }

  function MappedUpTo(pins: seq<bv8>, value: bv8, i: nat): bv8
    requires i <= |pins|
  {
    if i == 0 then 0 else Or(MappedUpTo(pins, value, i - 1), If(Has(Shifted(value, i - 1), 0x01), pins[i - 1]))
  }

  lemma AllMapped(m: PinMap, value: bv8)
    ensures MappedUpTo([m.d4, m.d5, m.d6, m.d7], value, 4) == Mapped(m, value)
  {
    ShiftedBits(value);
    hide If, Or, Has, Shifted;
    var pins := [m.d4, m.d5, m.d6, m.d7];
    var a, b := If(Has(value, 0x01), m.d4), If(Has(value, 0x02), m.d5);
    assert MappedUpTo(pins, value, 1) == Or(MappedUpTo(pins, value, 0), a);
    assert MappedUpTo(pins, value, 2) == Or(MappedUpTo(pins, value, 1), b);
    assert MappedUpTo(pins, value, 3) == Or(MappedUpTo(pins, value, 2), If(Has(value, 0x04), m.d6));
    assert MappedUpTo(pins, value, 4) == Or(MappedUpTo(pins, value, 3), If(Has(value, 0x08), m.d7));
    OrZero(a);
  }

  lemma ShiftedBits(value: bv8)
    ensures Has(Shifted(value, 0), 0x01) <==> Has(value, 0x01)
    ensures Has(Shifted(value, 1), 0x01) <==> Has(value, 0x02)
    ensures Has(Shifted(value, 2), 0x01) <==> Has(value, 0x04)
    ensures Has(Shifted(value, 3), 0x01) <==> Has(value, 0x08)
  {
    assert Shifted(value, 0) == value;
    assert Shifted(value, 1) == value >> 1;
    assert Shifted(value, 2) == value >> 1 >> 1;
    assert Shifted(value, 3) == value >> 1 >> 1 >> 1;
  }

  lemma NothingMapped(pins: seq<bv8>, value: bv8)
    ensures MappedUpTo(pins, value, 0) == 0 && Shifted(value, 0) == value
  {
  }

  lemma OneMoreMapped(pins: seq<bv8>, value: bv8, i: nat)
    requires i < |pins|
    ensures Shifted(value, i + 1) == Shifted(value, i) >> 1
    ensures MappedUpTo(pins, value, i + 1) ==
            if Has(Shifted(value, i), 0x01) then Or(MappedUpTo(pins, value, i), pins[i]) else MappedUpTo(pins, value, i)
  {
    hide Has, Or;
    OrZero(MappedUpTo(pins, value, i));
  }

  lemma LowBit(value: bv8)
    ensures value & 0x01 == 1 <==> Has(value, 0x01)
  {
  }

  /** The loop shared by the drivers with a pin map. */
  method MapNibble(pins: array<bv8>, nibble: bv8, ghost m: PinMap) returns (pinMapValue: bv8)
    requires pins[..] == [m.d4, m.d5, m.d6, m.d7]
    ensures pinMapValue == Mapped(m, nibble)
  {
    NothingMapped(pins[..], nibble);
    hide Mapped, Has, MappedUpTo, Or, If, Shifted;
    pinMapValue := 0;
    var value := nibble;
    for i := 0 to 4
      invariant value == Shifted(nibble, i) && pinMapValue == MappedUpTo(pins[..], nibble, i)
    {
      OneMoreMapped(pins[..], nibble, i);
      LowBit(value);
      if value & 0x01 == 1 {
        pinMapValue := Or(pinMapValue, pins[i]);
      }
      value := value >> 1;
    }
    AllMapped(m, nibble);
  }

  // ---- the backlight ----

  datatype Polarity = POSITIVE | NEGATIVE

  /** Is the backlight output high for this level, whichever way round it is wired? */
  predicate BacklightHigh(polarity: Polarity, level: bv8) {
    (polarity == POSITIVE && level > 0) || (polarity == NEGATIVE && level == 0)
  }

  lemma StrobesAre(value: bv8, mode: Mode)
    ensures Strobes(value, mode) ==
            if mode == FOUR_BITS then [Strobe(false, value & 0x0F)]
            else [Strobe(mode == DATA, value >> 4), Strobe(mode == DATA, value & 0x0F)]
  {
  }

  lemma UpperNibble(value: bv8)
    ensures (value >> 4) & 0x0F == value >> 4 && (value & 0x0F) & 0x0F == value & 0x0F
  {
  }
}
