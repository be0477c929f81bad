/** A display behind an I2C port expander. */
module LcdExpander {
  import opened Bits
  import opened Hd44780
  import opened LcdWiring

  /** The eight outputs of the expander, the display on them, and what it was strobed with. */
  class Expander {
    const pins: PinMap
    var port: bv8
    var log: seq<Strobe>

    constructor (pins: PinMap, port: bv8)
      ensures this.pins == pins && this.port == port && log == []
    {
      this.pins, this.port, log := pins, port, [];
    }

    /** The display takes in what is on its pins when Enable falls while Read/Write is low. */
    method Drive(value: bv8)
      modifies this
      ensures port == value && log == old(log) + Falling(pins, old(port), value)
    {
      log := log + Falling(pins, port, value);
      port := value;
    }
  }

  function Falling(pins: PinMap, before: bv8, after: bv8): seq<Strobe> {
    if Has(before, pins.en) && !Has(after, pins.en) && !Has(before, pins.rw) then [Sample(pins, before)] else []
  }

  class I2CIO {
    const wire: Expander
    var dirMask: bv8         // ones are inputs
    var shadow: bv8
    var initialised: bool

    constructor (wire: Expander)
      ensures this.wire == wire && dirMask == 0xFF && shadow == 0 && !initialised
    {
      this.wire := wire;
      dirMask, shadow, initialised := 0xFF, 0, false;
    }

    /** The device may not be there; the byte read from it is not used. */
    method Begin(available: bool, read: bv8) returns (ok: bool)
      modifies this`initialised, this`shadow
      ensures ok == initialised == available
    {
      initialised := available;
      if initialised {
        shadow := read;
      }
      ok := initialised;
    }

    method PortMode(output: bool)
      modifies this`dirMask
      ensures dirMask == if !initialised then old(dirMask) else if output then 0x00 else 0xFF
    {
      if initialised {
        if output {
          dirMask := 0x00;
        } else {
          dirMask := 0xFF;
        }
      }
    }

    /** Only outputs are ever driven high. */
    method Write(value: bv8)
      modifies this`shadow, wire
      ensures !initialised ==> shadow == old(shadow) && wire.port == old(wire.port) && wire.log == old(wire.log)
      ensures initialised ==>
                && wire.port == shadow == Driven(value, dirMask)
                && wire.log == old(wire.log) + Falling(wire.pins, old(wire.port), Driven(value, dirMask))
    {
      if initialised {
        shadow := value & !dirMask;
        wire.Drive(shadow);
      }
    }
  }

  /** What is driven of a value: inputs stay low. */
  function Driven(value: bv8, dirMask: bv8): bv8 {
    value & !dirMask
  }

  lemma AllOutputs(value: bv8)
    ensures Driven(value, 0x00) == value
  {
  }

  lemma EnableStaysLow(m: PinMap, port: bv8, value: bv8)
    ensures !Has(port, m.en) ==> Falling(m, port, value) == []
  {
  }

  /** From Enable low, the two writes of a pulse strobe the display with `s`, and leave Enable low. */
  predicate Pulses(m: PinMap, port: bv8, high: bv8, low: bv8, s: Strobe) {
    Falling(m, port, high) == [] && Falling(m, high, low) == [s] && !Has(low, m.en)
  }

  lemma PulseStrobes(m: PinMap, rs: bool, value: bv8, backlight: bv8, port: bv8)
    requires Distinct(m, backlight) && !Has(port, m.en)
    ensures var data := PortFor(m, rs, value, backlight);
            Pulses(m, port, Or(data, m.en), Without(data, m.en), Strobe(rs, value & 0x0F))
  {
    hide Has, PortFor, Sample, Distinct;
    MappedIsSampled(m, rs, value, backlight);
  }

  lemma PortKeeps(m: PinMap, rs: bool, value: bv8, backlight: bv8)
    requires Distinct(m, backlight)
    ensures Without(PortFor(m, rs, value, backlight), m.en) == PortFor(m, rs, value, backlight)
  {
    hide Has, PortFor, Sample, Distinct, Without;
    MappedIsSampled(m, rs, value, backlight);
  }

  class LiquidCrystal_I2C {
    const i2cio: I2CIO
    var backlightPinMask: bv8
    var backlightStsMask: bv8
    var polarity: Polarity
    const en: bv8
    const rw: bv8
    const rs: bv8
    const dataPins: array<bv8>

    /** `pins` are the outputs for En, Rw, Rs and D4 to D7; the last one is free for a backlight. */
    constructor (i2cio: I2CIO, pins: seq<nat>)
      requires DifferentPins(pins) && i2cio.wire.pins == MapOf(pins) && !i2cio.initialised
      ensures Valid() && this.i2cio == i2cio && backlightPinMask == 0 && fresh(dataPins)
    {
      hide MaskOf, Distinct, Has;
      this.i2cio := i2cio;
      backlightPinMask, backlightStsMask, polarity := 0, 0, POSITIVE;
      en, rw, rs := MaskOf(pins[0]), MaskOf(pins[1]), MaskOf(pins[2]);
      dataPins := new bv8[4] [MaskOf(pins[3]), MaskOf(pins[4]), MaskOf(pins[5]), MaskOf(pins[6])];
      new;
      DistinctPins(pins);
      OffIsDistinct(MapOf(pins), MaskOf(pins[7]));
    }

    function Pins(): PinMap
      requires dataPins.Length == 4
      reads dataPins
    {
      PinMap(en, rw, rs, dataPins[0], dataPins[1], dataPins[2], dataPins[3])
    }

    /** Between calls Enable is low, and the expander drives all its pins. */
    ghost predicate Valid()
      reads this, dataPins, i2cio, i2cio.wire
    {
      && dataPins.Length == 4 && i2cio.wire.pins == Pins() && Distinct(Pins(), backlightPinMask)
      && (backlightStsMask == 0 || backlightStsMask == backlightPinMask)
      && (i2cio.initialised ==> i2cio.dirMask == 0 && !Has(i2cio.wire.port, en))
    }

    /** What of `strobes` gets through: nothing if the expander was not found. */
    function Through(strobes: seq<Strobe>): seq<Strobe>
      reads i2cio`initialised
    {
      if i2cio.initialised then strobes else []
    }

    lemma ThroughTwo(a: Strobe, b: Strobe)
      ensures Through([a]) + Through([b]) == Through([a, b])
    {
    }

    /** Drives all outputs low; an expander that had Enable high strobes the display once more in doing so. */
    method Init(available: bool, read: bv8) returns (ok: bool)
      requires Valid()
      modifies i2cio, i2cio.wire
      ensures Valid() && ok == i2cio.initialised == available
      ensures i2cio.wire.log == old(i2cio.wire.log) + Through(Falling(Pins(), old(i2cio.wire.port), 0))
    {
      ok := i2cio.Begin(available, read);
      if ok {
        i2cio.PortMode(true);
        AllOutputs(0);
        EnableNonzero(Pins(), backlightPinMask);
        i2cio.Write(0);
      }
    }

    method SetBacklightPin(pin: nat, polarity: Polarity)
      requires Valid() && Distinct(Pins(), MaskOf(pin))
      modifies this`backlightPinMask, this`polarity, this`backlightStsMask, i2cio`shadow, i2cio.wire
      ensures Valid() && backlightPinMask == MaskOf(pin) && this.polarity == polarity
      ensures i2cio.wire.log == old(i2cio.wire.log)
    {
      hide MaskOf, Has, Distinct;
      OffIsDistinct(Pins(), backlightPinMask);
      backlightPinMask := MaskOf(pin);
      backlightStsMask := 0;
      this.polarity := polarity;
      SetBacklight(0);
    }

    /** The backlight goes on or off without a strobe. */
    method SetBacklight(level: bv8)
      requires Valid()
      modifies this`backlightStsMask, i2cio`shadow, i2cio.wire
      ensures Valid()
      ensures backlightPinMask != 0 ==>
                backlightStsMask == if (polarity == POSITIVE && level > 0) || (polarity == NEGATIVE && level == 0)
                                    then backlightPinMask else 0
      ensures backlightPinMask != 0 && i2cio.initialised ==> i2cio.wire.port == backlightStsMask
      ensures i2cio.wire.log == old(i2cio.wire.log)
    {
      hide Has, Distinct;
      if backlightPinMask != 0x0 {
        if BacklightHigh(polarity, level) {
          backlightStsMask := backlightPinMask;
        } else {
          backlightStsMask := 0;
        }
        WriteBacklight();
      }
    }

    method WriteBacklight()
      requires Valid()
      modifies i2cio`shadow, i2cio.wire
      ensures Valid() && i2cio.wire.log == old(i2cio.wire.log)
      ensures i2cio.initialised ==> i2cio.wire.port == backlightStsMask
    {
      hide Has, Distinct, Falling, Driven;
      EnableStaysLow(Pins(), i2cio.wire.port, backlightStsMask);
      EnableNonzero(Pins(), backlightPinMask);
      AllOutputs(backlightStsMask);
      i2cio.Write(backlightStsMask);
    }

    method Send(value: bv8, mode: Mode)
      requires Valid()
      modifies i2cio`shadow, i2cio.wire
      ensures Valid()
      ensures i2cio.wire.log == old(i2cio.wire.log) + Through(Strobes(value, mode))
    {
      hide *;
      StrobesAre(value, mode);
      UpperNibble(value);
      if mode == FOUR_BITS {
        Write4Bits(value & 0x0F, COMMAND);
      } else {
        Write4Bits(value >> 4, mode);
        Write4Bits(value & 0x0F, mode);
        ThroughTwo(Strobe(mode == DATA, value >> 4), Strobe(mode == DATA, value & 0x0F));
      }
    }

    method Write4Bits(value: bv8, mode: Mode)
      requires Valid() && mode != FOUR_BITS
      modifies i2cio`shadow, i2cio.wire
      ensures Valid()
      ensures i2cio.wire.log == old(i2cio.wire.log) + Through([Strobe(mode == DATA, value & 0x0F)])
      ensures i2cio.initialised ==> i2cio.wire.port == PortFor(Pins(), mode == DATA, value, backlightStsMask)
    {
      hide Has, Distinct, Mapped, Falling, Pulses, Driven, If, Or, PortFor, Without;
      ghost var m, register, lit := Pins(), mode == DATA, backlightStsMask;
      var pinMapValue := MapNibble(dataPins, value, m);
      pinMapValue := Or(pinMapValue, Or(If(mode == DATA, rs), backlightStsMask));
      PortIs(m, register, value, lit);
      if lit == 0 {
        OffIsDistinct(m, backlightPinMask);
      }
      PortKeeps(m, register, value, lit);
      if i2cio.initialised {
        PulseStrobes(m, register, value, lit, i2cio.wire.port);
      }
      PulseEnable(pinMapValue, Strobe(register, value & 0x0F));
    }

    method PulseEnable(data: bv8, ghost s: Strobe)
      requires Valid() && (i2cio.initialised ==> Pulses(Pins(), i2cio.wire.port, Or(data, en), Without(data, en), s))
      modifies i2cio`shadow, i2cio.wire
      ensures Valid()
      ensures i2cio.wire.log == old(i2cio.wire.log) + Through([s])
      ensures i2cio.initialised ==> i2cio.wire.port == Without(data, en)
    {
      hide Has, Distinct, Falling, Driven, Or, Without;
      AllOutputs(Or(data, en));
      AllOutputs(Without(data, en));
      i2cio.Write(Or(data, en));         // En HIGH
      i2cio.Write(Without(data, en));    // En LOW
    }

    /** Any sequence of calls strobes what those calls have to deliver, and nothing for the backlight. */
    method Perform(calls: seq<Call>)
      requires Valid()
      modifies this`backlightStsMask, i2cio`shadow, i2cio.wire
      ensures Valid()
      ensures i2cio.wire.log == old(i2cio.wire.log) + Through(Delivered(calls))
    {
      hide Delivered, Strobes, Has, Distinct;
      NothingDelivered();
      for i := 0 to |calls|
        invariant Valid()
        invariant i2cio.wire.log == old(i2cio.wire.log) + Through(Delivered(calls[..i]))
      {
        assert calls[..i + 1] == calls[..i] + [calls[i]];
        DeliveredSnoc(calls[..i], calls[i]);
        match calls[i]
        case Send(value, mode) => Send(value, mode);
        case SetBacklight(level) => SetBacklight(level);
      }
      assert calls[..|calls|] == calls;
    }
  }
}
