/** Displays behind a shift register: the wires, the shifting, and the drivers for two and three wires. */
module LcdShiftRegister {
  import opened Bits
  import opened Hd44780
  import opened LcdWiring

  /** How Enable is made: as data line AND output Q7; on a wire of its own; or as an output of the latch behind the
      register, which a strobe line loads. */
  datatype Wiring = AndGate | EnableWire | Latched(pins: PinMap)

  /** The lines into the register, and what is in it and in its latch. */
  datatype Lines = Lines(data: bool, clock: bool, strobe: bool, reg: bv8, latch: bv8)

  predicate Enable(w: Wiring, l: Lines) {
    match w
    case AndGate => l.data && Q7(l.reg)
    case EnableWire => l.strobe
    case Latched(pins) => Has(l.latch, pins.en) && !Has(l.latch, pins.rw)
  }

  predicate Q7(reg: bv8) {
    reg & 0x80 != 0
  }

  /** Outputs Q3 to Q6 are D4 to D7, and Q2 is Register Select. */
  function RegisterStrobe(reg: bv8): Strobe {
    Strobe(reg & 0x04 != 0, (reg >> 3) & 0x0F)
  }

  function Seen(w: Wiring, l: Lines): Strobe {
    match w
    case Latched(pins) => Sample(pins, l.latch)
    case _ => RegisterStrobe(l.reg)
  }

  /** The display takes in what it saw before Enable fell. */
  function Edge(w: Wiring, before: Lines, after: Lines): seq<Strobe> {
    if Enable(w, before) && !Enable(w, after) then [Seen(w, before)] else []
  }

  /** A rising clock shifts the data line in. */
  function ShiftIn(reg: bv8, data: bool): bv8 {
    (reg << 1) | If(data, 0x01)
  }

  class Wires {
    const wiring: Wiring
    var lines: Lines
    var log: seq<Strobe>

    constructor (wiring: Wiring, lines: Lines)
      ensures this.wiring == wiring && this.lines == lines && log == []
    {
      this.wiring, this.lines, log := wiring, lines, [];
    }

    /** The pins become outputs, and low; the strobe pin only if there is one. */
    method PullLow()
      modifies this
      ensures lines == Low(wiring, old(lines)) && Quiet(wiring, lines)
      ensures log == old(log) + Edge(wiring, old(lines), lines)
    {
      WriteData(false);
      WriteClock(false);
      if !wiring.AndGate? {
        WriteStrobe(false);
      }
    }

    method WriteData(level: bool)
      modifies this
      ensures lines == old(lines).(data := level)
      ensures log == old(log) + Edge(wiring, old(lines), lines)
    {
      log := log + Edge(wiring, lines, lines.(data := level));
      lines := lines.(data := level);
    }

    method WriteClock(level: bool)
      modifies this
      ensures lines == Clocked(old(lines), level)
      ensures log == old(log) + Edge(wiring, old(lines), lines)
    {
      log := log + Edge(wiring, lines, Clocked(lines, level));
      lines := Clocked(lines, level);
    }

    /** The Enable wire itself, or the line that loads the latch. */
    method WriteStrobe(level: bool)
      modifies this
      ensures lines == Strobed(old(lines), level)
      ensures log == old(log) + Edge(wiring, old(lines), lines)
    {
      log := log + Edge(wiring, lines, Strobed(lines, level));
      lines := Strobed(lines, level);
    }
  }

  function Low(w: Wiring, l: Lines): Lines {
    l.(data := false, clock := false, strobe := if w.AndGate? then l.strobe else false)
  }

  function Clocked(l: Lines, level: bool): Lines {
    l.(clock := level, reg := if level && !l.clock then ShiftIn(l.reg, l.data) else l.reg)
  }

  function Strobed(l: Lines, level: bool): Lines {
    l.(strobe := level, latch := if level && !l.strobe then l.reg else l.latch)
  }

  // ---- shifting a byte out ----

  function Twice(value: bv8): bv8 {
    value << 1
  }

  function ValueAfter(value: bv8, i: nat): bv8 {
    if i == 0 then value else Twice(ValueAfter(value, i - 1))
  }

  function RegAfter(reg: bv8, value: bv8, i: nat): bv8 {
    if i == 0 then reg else Step(RegAfter(reg, value, i - 1), ValueAfter(value, i - 1))
  }

  /** Shifts the top bit of `value` into the register. */
  function Step(reg: bv8, value: bv8): bv8 {
    ShiftIn(reg, Q7(value))
  }

  /** Eight shifts replace the register, whatever was in it; the line is left at the last bit. */
  lemma EightShifts(reg: bv8, value: bv8)
    ensures RegAfter(reg, value, 8) == value
    ensures Q7(ValueAfter(value, 7)) <==> value & 0x01 != 0
  {
    var v1 := Twice(value);
    var v2 := Twice(v1);
    var v3 := Twice(v2);
    var v4 := Twice(v3);
    var v5 := Twice(v4);
    var v6 := Twice(v5);
    EightBits(reg, value, v1, v2, v3, v4, v5, v6, Twice(v6));
    hide Step, Twice, Q7;
    assert ValueAfter(value, 1) == v1;
    assert ValueAfter(value, 2) == v2;
    assert ValueAfter(value, 3) == v3;
    assert ValueAfter(value, 4) == v4;
    assert ValueAfter(value, 5) == v5;
    assert ValueAfter(value, 6) == v6;
    assert RegAfter(reg, value, 1) == Step(reg, value);
    assert RegAfter(reg, value, 2) == Step(RegAfter(reg, value, 1), v1);
    assert RegAfter(reg, value, 3) == Step(RegAfter(reg, value, 2), v2);
    assert RegAfter(reg, value, 4) == Step(RegAfter(reg, value, 3), v3);
    assert RegAfter(reg, value, 5) == Step(RegAfter(reg, value, 4), v4);
    assert RegAfter(reg, value, 6) == Step(RegAfter(reg, value, 5), v5);
    assert RegAfter(reg, value, 7) == Step(RegAfter(reg, value, 6), v6);
  }

  lemma EightBits(reg: bv8, v: bv8, v1: bv8, v2: bv8, v3: bv8, v4: bv8, v5: bv8, v6: bv8, v7: bv8)
    requires v1 == v << 1 && v2 == v1 << 1 && v3 == v2 << 1 && v4 == v3 << 1 && v5 == v4 << 1 && v6 == v5 << 1 && v7 == v6 << 1
    ensures Step(Step(Step(Step(Step(Step(Step(Step(reg, v), v1), v2), v3), v4), v5), v6), v7) == v
    ensures Q7(v7) <==> v & 0x01 != 0
  {
  }

  /** A register that was cleared has its top output low until the last of eight shifts. */
  lemma {:induction false} TopStaysLow(value: bv8, i: nat)
    requires i <= 7
    ensures RegAfter(0, value, i) < Bound(i) && !Q7(RegAfter(0, value, i))
  {
    if i > 0 {
      TopStaysLow(value, i - 1);
      Doubles(RegAfter(0, value, i - 1), Q7(ValueAfter(value, i - 1)), i - 1);
    }
    BelowTop(RegAfter(0, value, i), i);
  }

  function Bound(i: nat): bv8
    requires i <= 7
  {
    if i == 0 then 0x01 else if i == 1 then 0x02 else if i == 2 then 0x04 else if i == 3 then 0x08
    else if i == 4 then 0x10 else if i == 5 then 0x20 else if i == 6 then 0x40 else 0x80
  }

  lemma Doubles(reg: bv8, bit: bool, i: nat)
    requires i <= 6 && reg < Bound(i)
    ensures ShiftIn(reg, bit) < Bound(i + 1)
  {
  }

  lemma BelowTop(reg: bv8, i: nat)
    requires i <= 7 && reg < Bound(i)
    ensures !Q7(reg)
  {
  }

  /** Between calls the clock is low, and so is whatever line makes Enable. */
  predicate Quiet(w: Wiring, l: Lines) {
    !l.clock && if w.AndGate? then !l.data else !l.strobe
  }

  /** With an AND gate, a register whose top output is low keeps Enable low. */
  lemma NoEdge(w: Wiring, before: Lines, after: Lines)
    requires before.strobe == after.strobe && before.latch == after.latch
    requires w.AndGate? ==> !Q7(before.reg) || !before.data
    ensures Edge(w, before, after) == []
  {
  }

  lemma ClockFalls(w: Wiring, l: Lines)
    ensures Edge(w, l, Clocked(l, false)) == []
  {
  }

  method ShiftBit(wires: Wires, bit: bool)
    requires !wires.lines.clock && (wires.wiring.AndGate? ==> !Q7(wires.lines.reg))
    modifies wires
    ensures wires.lines == old(wires.lines).(data := bit, reg := ShiftIn(old(wires.lines.reg), bit))
    ensures wires.log == old(wires.log)
  {
    hide Q7, ShiftIn, Edge, Enable;
    ghost var l := wires.lines;
    ghost var l1 := l.(data := bit);
    NoEdge(wires.wiring, l, l1);
    NoEdge(wires.wiring, l1, Clocked(l1, true));
    ClockFalls(wires.wiring, Clocked(l1, true));
    if bit {
      wires.WriteData(true);
    } else {
      wires.WriteData(false);
    }
    wires.WriteClock(true);
    wires.WriteClock(false);
  }

  /** Shifts a byte out, top bit first. */
  method ShiftOut(wires: Wires, value: bv8)
    requires !wires.lines.clock && (wires.wiring.AndGate? ==> wires.lines.reg == 0)
    modifies wires
    ensures wires.lines == old(wires.lines).(reg := value, data := value & 0x01 != 0)
    ensures wires.log == old(wires.log)
  {
    hide Q7, ShiftIn, Twice;
    ghost var start := wires.lines;
    var v := value;
    for i := 0 to 8
      invariant v == ValueAfter(value, i)
      invariant wires.lines == start.(reg := RegAfter(start.reg, value, i), data := wires.lines.data)
      invariant i > 0 ==> wires.lines.data == Q7(ValueAfter(value, i - 1))
      invariant wires.log == old(wires.log)
    {
      if wires.wiring.AndGate? {
        TopStaysLow(value, i);
      }
      ShiftBit(wires, Q7(v));
      v := Twice(v);
    }
    EightShifts(start.reg, value);
  }

  /** Shifts out eight zeros: afterwards the register is clear. A data line that was left high while Q7 was high strobes
      the display once. */
  method ShiftOutZeros(wires: Wires)
    requires !wires.lines.clock
    modifies wires
    ensures wires.lines == old(wires.lines).(reg := 0, data := false)
    ensures wires.log == old(wires.log) + Edge(wires.wiring, old(wires.lines), old(wires.lines).(data := false))
  {
    hide Q7, ShiftIn, Twice, Edge, Enable;
    wires.WriteData(false);
    ghost var start := wires.lines;
    for i := 0 to 8
      invariant wires.lines == start.(reg := RegAfter(start.reg, 0, i))
      invariant wires.log == old(wires.log) + Edge(wires.wiring, old(wires.lines), start)
    {
      NothingShiftedIn(i);
      ghost var l := wires.lines;
      NoEdge(wires.wiring, l, Clocked(l, true));
      ClockFalls(wires.wiring, Clocked(l, true));
      wires.WriteClock(true);
      wires.WriteClock(!wires.lines.clock);
    }
    EightShifts(start.reg, 0);
  }

  lemma {:induction false} NothingShiftedIn(i: nat)
    ensures ValueAfter(0, i) == 0 && !Q7(ValueAfter(0, i))
  {
    if i > 0 {
      NothingShiftedIn(i - 1);
    }
  }

  // ---- two wires: the trick with Enable ----

  /** Whatever was in the register: it is cleared, loaded without a strobe, and strobes the display once if the top bit
      of `val` is set, and not at all if it is not. Bit 0 of `val` makes no difference. */
  method LoadTwoWires(wires: Wires, val: bv8)
    requires wires.wiring.AndGate? && Quiet(wires.wiring, wires.lines)
    modifies wires
    ensures wires.lines == old(wires.lines).(reg := val) && Quiet(wires.wiring, wires.lines)
    ensures wires.log == old(wires.log) + if Q7(val) then [RegisterStrobe(val)] else []
  {
    hide Q7, RegisterStrobe;
    ShiftOutZeros(wires);
    ShiftOut(wires, val);
    wires.WriteData(true);
    wires.WriteData(false);
  }

  class LiquidCrystal_SR2W {
    const wires: Wires
    const blPolarity: Polarity
    var blMask: bv8

    constructor (wires: Wires, blPolarity: Polarity)
      requires wires.wiring.AndGate?
      modifies wires
      ensures Valid() && this.wires == wires && this.blPolarity == blPolarity
      ensures wires.lines.reg == blMask == if blPolarity == POSITIVE then 0x02 else 0
      ensures wires.log == old(wires.log) + Edge(wires.wiring, old(wires.lines), Low(wires.wiring, old(wires.lines)))
    {
      this.wires, this.blPolarity := wires, blPolarity;
      new;
      hide Edge;
      wires.PullLow();
      SetBacklight(255);
    }

    ghost predicate Valid()
      reads this, wires
    {
      wires.wiring.AndGate? && Quiet(wires.wiring, wires.lines) && (blMask == 0 || blMask == 0x02)
    }

    method Send(value: bv8, mode: Mode)
      requires Valid()
      modifies wires
      ensures Valid()
      ensures wires.log == old(wires.log) + Strobes(value, mode)
      ensures wires.lines.reg == RegisterFor(mode == DATA, blMask, value << 3)
    {
      hide Q7, RegisterStrobe, RegisterFor;
      UpperLoaded(mode == DATA, blMask, value);
      LowerLoaded(mode == DATA, blMask, value);
      if mode != FOUR_BITS {
        LoadTwoWires(wires, RegisterFor(mode == DATA, blMask, value >> 1));    // upper nibble
      }
      LoadTwoWires(wires, RegisterFor(mode == DATA, blMask, value << 3));      // lower nibble
    }

    /** Loads a byte that does not have the Enable bit: no strobe. */
    method SetBacklight(level: bv8)
      requires wires.wiring.AndGate? && Quiet(wires.wiring, wires.lines)
      modifies this`blMask, wires
      ensures Valid()
      ensures blMask == if (blPolarity == POSITIVE && level > 0) || (blPolarity == NEGATIVE && level == 0) then 0x02 else 0
      ensures wires.lines.reg == blMask
      ensures wires.log == old(wires.log)
    {
      if BacklightHigh(blPolarity, level) {
        blMask := 0x02;
      } else {
        blMask := 0;
      }
      LoadTwoWires(wires, blMask);
    }

    method Perform(calls: seq<Call>)
      requires Valid()
      modifies this`blMask, wires
      ensures Valid()
      ensures wires.log == old(wires.log) + Delivered(calls)
    {
      hide Delivered, Strobes;
      NothingDelivered();
      for i := 0 to |calls|
        invariant Valid()
        invariant wires.log == old(wires.log) + Delivered(calls[..i])
      {
        assert calls[..i + 1] == calls[..i] + [calls[i]];
        DeliveredSnoc(calls[..i], calls[i]);
        match calls[i]
        case Send(value, mode) => Send(value, mode);
        case SetBacklight(level) => SetBacklight(level);
      }
      assert calls[..|calls|] == calls;
    }
  }

  /** The byte for the register: Enable and Register Select, the backlight, and four data bits in place. */
  function RegisterFor(rs: bool, blMask: bv8, shifted: bv8): bv8 {
    (If(rs, 0x04) | 0x80 | blMask) | (shifted & 0x78)
  }

  /** The register's outputs, one by one: Q7 gates Enable, Q6 to Q3 are D7 to D4, Q2 is Register Select, Q1 the backlight. */
  lemma RegisterLines(rs: bool, blMask: bv8, value: bv8)
    requires blMask == 0 || blMask == 0x02
    ensures var val := RegisterFor(rs, blMask, value << 3);
            && Has(val, 0x80) && (Has(val, 0x04) <==> rs) && (Has(val, 0x02) <==> blMask == 0x02) && !Has(val, 0x01)
            && (Has(val, 0x08) <==> Has(value, 0x01)) && (Has(val, 0x10) <==> Has(value, 0x02))
            && (Has(val, 0x20) <==> Has(value, 0x04)) && (Has(val, 0x40) <==> Has(value, 0x08))
    ensures var val := RegisterFor(rs, blMask, value >> 1);
            && Has(val, 0x80) && (Has(val, 0x04) <==> rs) && (Has(val, 0x02) <==> blMask == 0x02) && !Has(val, 0x01)
            && (Has(val, 0x08) <==> Has(value, 0x10)) && (Has(val, 0x10) <==> Has(value, 0x20))
            && (Has(val, 0x20) <==> Has(value, 0x40)) && (Has(val, 0x40) <==> Has(value, 0x80))
  {
  }

  /** What the display sees of the outputs: Register Select on Q2, D4 on Q3, and so on up to D7 on Q6. */
  lemma RegisterSeen(reg: bv8)
    ensures var s := RegisterStrobe(reg);
            && (s.rs <==> Has(reg, 0x04)) && s.lines < 0x10
            && (Has(s.lines, 0x01) <==> Has(reg, 0x08)) && (Has(s.lines, 0x02) <==> Has(reg, 0x10))
            && (Has(s.lines, 0x04) <==> Has(reg, 0x20)) && (Has(s.lines, 0x08) <==> Has(reg, 0x40))
  {
  }

  lemma UpperLoaded(rs: bool, blMask: bv8, value: bv8)
    requires blMask == 0 || blMask == 0x02
    ensures var val := RegisterFor(rs, blMask, value >> 1);
            Q7(val) && RegisterStrobe(val) == Strobe(rs, value >> 4)
  {
  }

  lemma LowerLoaded(rs: bool, blMask: bv8, value: bv8)
    requires blMask == 0 || blMask == 0x02
    ensures var val := RegisterFor(rs, blMask, value << 3);
            Q7(val) && RegisterStrobe(val) == Strobe(rs, value & 0x0F)
  {
  }

  // ---- two or three wires, the display's outputs fixed ----

  class LiquidCrystal_SR {
    const wires: Wires
    const twoWire: bool

    constructor (wires: Wires, twoWire: bool)
      requires wires.wiring == if twoWire then AndGate else EnableWire
      modifies wires
      ensures Valid() && this.wires == wires && this.twoWire == twoWire
      ensures wires.lines == Low(wires.wiring, old(wires.lines))
      ensures wires.log == old(wires.log) + Edge(wires.wiring, old(wires.lines), wires.lines)
    {
      this.wires, this.twoWire := wires, twoWire;
      new;
      wires.PullLow();
    }

    ghost predicate Valid()
      reads wires
    {
      wires.wiring == (if twoWire then AndGate else EnableWire) && Quiet(wires.wiring, wires.lines)
    }

    /** Loads the register and pulses Enable. */
    method ShiftIt(val: bv8)
      requires Valid() && Q7(val)
      modifies wires
      ensures Valid() && wires.lines.reg == val
      ensures wires.log == old(wires.log) + [RegisterStrobe(val)]
    {
      hide Q7, RegisterStrobe;
      if twoWire {
        ShiftOutZeros(wires);
      }
      ShiftOut(wires, val);
      if twoWire {
        wires.WriteData(true);
        wires.WriteData(false);
      } else {
        wires.WriteStrobe(true);
        wires.WriteStrobe(false);
      }
    }

    method Send(value: bv8, mode: Mode)
      requires Valid()
      modifies wires
      ensures Valid()
      ensures wires.log == old(wires.log) + Strobes(value, mode)
      ensures wires.lines.reg == RegisterFor(mode == DATA, 0, value << 3)
    {
      hide Q7, RegisterStrobe, RegisterFor;
      UpperLoaded(mode == DATA, 0, value);
      LowerLoaded(mode == DATA, 0, value);
      var val := RegisterFor(mode == DATA, 0, value >> 1);
      if mode != FOUR_BITS {
        ShiftIt(val);    // upper nibble
      }
      val := RegisterFor(mode == DATA, 0, value << 3);
      ShiftIt(val);      // lower nibble
    }

    /** There is no backlight to switch. */
    method SetBacklight(level: bv8)
      requires Valid()
      ensures Valid() && wires.log == old(wires.log)
    {
    }

    method Perform(calls: seq<Call>)
      requires Valid()
      modifies wires
      ensures Valid()
      ensures wires.log == old(wires.log) + Delivered(calls)
    {
      hide Delivered, Strobes;
      NothingDelivered();
      for i := 0 to |calls|
        invariant Valid()
        invariant wires.log == old(wires.log) + Delivered(calls[..i])
      {
        assert calls[..i + 1] == calls[..i] + [calls[i]];
        DeliveredSnoc(calls[..i], calls[i]);
        match calls[i]
        case Send(value, mode) => Send(value, mode);
        case SetBacklight(level) => SetBacklight(level);
      }
      assert calls[..|calls|] == calls;
    }
  }

  // ---- three wires, a latch, and outputs as configured ----

  class LiquidCrystal_SR3W {
    const wires: Wires
    var backlightPinMask: bv8
    var backlightStsMask: bv8
    var polarity: Polarity
    const en: bv8
    const rw: bv8
    const rs: bv8
    const dataPins: array<bv8>

    /** `pins` are the outputs for En, Rw, Rs and D4 to D7; the last one is free for a backlight. */
    constructor (wires: Wires, pins: seq<nat>)
      requires DifferentPins(pins) && wires.wiring == Latched(MapOf(pins))
      modifies wires
      ensures Valid() && this.wires == wires && backlightPinMask == 0 && fresh(dataPins)
      ensures wires.lines == Low(wires.wiring, old(wires.lines)) && wires.log == old(wires.log)
    {
      hide MaskOf, Distinct, Has, Sample;
      this.wires := wires;
      backlightPinMask, backlightStsMask, polarity := 0, 0, POSITIVE;
      en, rw, rs := MaskOf(pins[0]), MaskOf(pins[1]), MaskOf(pins[2]);
      dataPins := new bv8[4] [MaskOf(pins[3]), MaskOf(pins[4]), MaskOf(pins[5]), MaskOf(pins[6])];
      new;
      DistinctPins(pins);
      OffIsDistinct(MapOf(pins), MaskOf(pins[7]));
      wires.PullLow();
    }

    function Pins(): PinMap
      requires dataPins.Length == 4
      reads dataPins
    {
      PinMap(en, rw, rs, dataPins[0], dataPins[1], dataPins[2], dataPins[3])
    }

    ghost predicate SetUp()
      reads this, dataPins, wires
    {
      && dataPins.Length == 4 && wires.wiring == Latched(Pins()) && Distinct(Pins(), backlightPinMask)
      && (backlightStsMask == 0 || backlightStsMask == backlightPinMask)
      && Quiet(wires.wiring, wires.lines)
    }

    /** What the latch powers up with is not known. Nothing is loaded into it before the first byte sent, which has Enable
        high, or the backlight is set up; from then on it keeps Enable low between calls. */
    ghost predicate Valid()
      reads this, dataPins, wires
    {
      SetUp() && (backlightPinMask == 0 || !Has(wires.lines.latch, en))
    }

    /** The latch takes the whole byte at once, so Enable falls if it was high in the last byte and is low in this one. */
    method LoadSR(value: bv8)
      requires SetUp()
      modifies wires
      ensures SetUp() && wires.lines.latch == value
      ensures wires.log == old(wires.log) + LatchEdge(Pins(), old(wires.lines.latch), value)
    {
      hide Distinct, Sample, Has;
      ShiftOut(wires, value);
      wires.WriteStrobe(true);
      wires.WriteStrobe(false);
    }

    method SetBacklightPin(pin: nat, polarity: Polarity)
      requires SetUp() && Distinct(Pins(), MaskOf(pin)) && MaskOf(pin) != 0
      modifies this`backlightPinMask, this`polarity, this`backlightStsMask, wires
      ensures Valid() && backlightPinMask == MaskOf(pin) && this.polarity == polarity
      ensures wires.log == old(wires.log) + LatchEdge(Pins(), old(wires.lines.latch), wires.lines.latch)
    {
      hide MaskOf, Has, Distinct, LatchEdge, BacklightHigh;
      backlightPinMask := MaskOf(pin);
      backlightStsMask := 0;
      this.polarity := polarity;
      SetBacklight(0);
    }

    method SetBacklight(level: bv8)
      requires SetUp()
      modifies this`backlightStsMask, wires
      ensures Valid() && (old(!Has(wires.lines.latch, en)) ==> !Has(wires.lines.latch, en))
      ensures backlightPinMask != 0 ==>
                wires.lines.latch == backlightStsMask ==
                if (polarity == POSITIVE && level > 0) || (polarity == NEGATIVE && level == 0) then backlightPinMask else 0
      ensures wires.log == old(wires.log) + LatchEdge(Pins(), old(wires.lines.latch), wires.lines.latch)
      ensures old(Valid()) ==> wires.log == old(wires.log)
    {
      hide Has, Distinct, LatchEdge;
      LatchStays(Pins(), wires.lines.latch);
      EnableNonzero(Pins(), backlightPinMask);
      if backlightPinMask != 0x0 {
        if BacklightHigh(polarity, level) {
          backlightStsMask := backlightPinMask;
        } else {
          backlightStsMask := 0;
        }
        LatchLow(Pins(), wires.lines.latch, backlightStsMask);
        LoadSR(backlightStsMask);
      }
    }

    method Send(value: bv8, mode: Mode)
      requires SetUp()
      modifies wires
      ensures Valid() && !Has(wires.lines.latch, en)
      ensures wires.log == old(wires.log) + Strobes(value, mode)
    {
      hide *;
      StrobesAre(value, mode);
      UpperNibble(value);
      if mode != FOUR_BITS {
        Write4Bits(value >> 4, mode);      // upper nibble
      }
      Write4Bits(value & 0x0F, mode);      // lower nibble
    }

    method Write4Bits(value: bv8, mode: Mode)
      requires SetUp()
      modifies wires
      ensures SetUp() && Valid() && !Has(wires.lines.latch, en)
      ensures wires.log == old(wires.log) + [Strobe(mode == DATA, value & 0x0F)]
      ensures wires.lines.latch == PortFor(Pins(), mode == DATA, value, backlightStsMask)
    {
      hide Has, Distinct, Mapped, If, Or, PortFor, LatchEdge;
      ghost var m, register, lit := Pins(), mode == DATA, backlightStsMask;
      var pinMapValue := MapNibble(dataPins, value, m);
      pinMapValue := Or(pinMapValue, Or(If(mode == DATA, rs), backlightStsMask));
      PortIs(m, register, value, lit);
      if lit == 0 {
        OffIsDistinct(m, backlightPinMask);
      }
      LatchPulse(m, register, value, lit, wires.lines.latch);
      LoadSR(Or(pinMapValue, en));    // Enable high
      LoadSR(pinMapValue);            // Enable low
    }

    method Perform(calls: seq<Call>)
      requires Valid()
      modifies this`backlightStsMask, wires
      ensures Valid()
      ensures wires.log == old(wires.log) + Delivered(calls)
    {
      hide Delivered, Strobes, Has, Distinct, LatchEdge, BacklightHigh;
      NothingDelivered();
      for i := 0 to |calls|
        invariant Valid()
        invariant wires.log == old(wires.log) + Delivered(calls[..i])
      {
        assert calls[..i + 1] == calls[..i] + [calls[i]];
        DeliveredSnoc(calls[..i], calls[i]);
        match calls[i]
        case Send(value, mode) => Send(value, mode);
        case SetBacklight(level) => SetBacklight(level);
      }
      assert calls[..|calls|] == calls;
    }
  }

  function LatchEdge(m: PinMap, before: bv8, after: bv8): seq<Strobe> {
    if Has(before, m.en) && !Has(before, m.rw) && !(Has(after, m.en) && !Has(after, m.rw)) then [Sample(m, before)] else []
  }

  lemma LatchLow(m: PinMap, before: bv8, after: bv8)
    ensures !Has(before, m.en) ==> LatchEdge(m, before, after) == []
  {
  }

  lemma LatchStays(m: PinMap, latch: bv8)
    ensures LatchEdge(m, latch, latch) == []
  {
  }

  lemma LatchPulse(m: PinMap, rs: bool, value: bv8, backlight: bv8, latch: bv8)
    requires Distinct(m, backlight)
    ensures var data := PortFor(m, rs, value, backlight);
            && LatchEdge(m, latch, Or(data, m.en)) == [] && !Has(data, m.en)
            && LatchEdge(m, Or(data, m.en), data) == [Strobe(rs, value & 0x0F)]
  {
    hide Has, PortFor, Sample, Distinct, Or;
    MappedIsSampled(m, rs, value, backlight);
  }
}
