/** A display wired to the pins of the board, with four data lines: the reference for the other transports. */
module LcdParallel {
  import opened Bits
  import opened Hd44780
  import opened LcdWiring

  const NO_PIN: nat := 255

  /** The board's pins for Register Select, Read/Write (or none, if that one is tied low), Enable and D4 to D7. */
  datatype Pinout = Pinout(rs: nat, rw: nat, enable: nat, d4: nat, d5: nat, d6: nat, d7: nat)

  predicate Apart(p: Pinout) {
    && p.enable !in {p.rs, p.rw, p.d4, p.d5, p.d6, p.d7} && p.rs !in {p.rw, p.d4, p.d5, p.d6, p.d7}
    && p.rw !in {p.d4, p.d5, p.d6, p.d7} && p.d4 !in {p.d5, p.d6, p.d7} && p.d5 !in {p.d6, p.d7} && p.d6 != p.d7
    && NO_PIN !in {p.rs, p.enable, p.d4, p.d5, p.d6, p.d7}
  }

  /** Seven different pins, none of them 255, but that Read/Write may be tied low and then has the number 255. */
  lemma ApartMeans(p: Pinout)
    ensures var pins := [p.rs, p.rw, p.enable, p.d4, p.d5, p.d6, p.d7];
            Apart(p) <==>
            && (forall i, j :: 0 <= i < j < 7 ==> pins[i] != pins[j])
            && (forall i :: 0 <= i < 7 && i != 1 ==> pins[i] != 255)
  {
    var pins := [p.rs, p.rw, p.enable, p.d4, p.d5, p.d6, p.d7];
    assert pins[0] == p.rs && pins[1] == p.rw && pins[2] == p.enable && pins[3] == p.d4;
    assert pins[4] == p.d5 && pins[5] == p.d6 && pins[6] == p.d7;
  }

  predicate Level(levels: map<nat, bool>, pin: nat) {
    pin in levels && levels[pin]
  }

  function DataPin(p: Pinout, i: nat): nat
    requires i < 4
  {
    if i == 0 then p.d4 else if i == 1 then p.d5 else if i == 2 then p.d6 else p.d7
  }

  function PinStrobe(p: Pinout, levels: map<nat, bool>): Strobe {
    Strobe(Level(levels, p.rs),
           NibbleOf(Level(levels, p.d4), Level(levels, p.d5), Level(levels, p.d6), Level(levels, p.d7)))
  }

  /** A write strobe, if Enable falls while Read/Write is low. */
  function PinEdge(p: Pinout, before: map<nat, bool>, after: map<nat, bool>): seq<Strobe> {
    if Level(before, p.enable) && !Level(after, p.enable) && (p.rw == NO_PIN || !Level(before, p.rw))
    then [PinStrobe(p, before)] else []
  }

  class Board {
    const pinout: Pinout
    var levels: map<nat, bool>
    var duty: map<nat, bv8>
    var log: seq<Strobe>

    constructor (pinout: Pinout)
      ensures this.pinout == pinout && levels == map[] && log == []
    {
      this.pinout, levels, duty, log := pinout, map[], map[], [];
    }

    method DigitalWrite(pin: nat, level: bool)
      modifies this`levels, this`log
      ensures levels == old(levels)[pin := level]
      ensures log == old(log) + PinEdge(pinout, old(levels), levels)
    {
      log := log + PinEdge(pinout, levels, levels[pin := level]);
      levels := levels[pin := level];
    }

    /** Pulse width modulation, on a pin that is none of the display's. */
    method AnalogWrite(pin: nat, value: bv8)
      modifies this`duty
      ensures duty == old(duty)[pin := value]
    {
      duty := duty[pin := value];
    }
  }

  class LiquidCrystal {
    const board: Board
    var backlightPin: nat
    var polarity: Polarity

    /** Pulls Register Select, Enable and Read/Write low. */
    constructor (board: Board)
      requires Apart(board.pinout)
      modifies board
      ensures Valid() && this.board == board && backlightPin == 255
      ensures board.pinout.rw in board.levels <==> board.pinout.rw != 255 || old(255 in board.levels)
      ensures board.log == old(board.log) + PinEdge(board.pinout, old(board.levels)[board.pinout.rs := false],
                                                    old(board.levels)[board.pinout.rs := false][board.pinout.enable := false])
    {
      this.board, backlightPin, polarity := board, NO_PIN, POSITIVE;
      new;
      board.DigitalWrite(board.pinout.rs, false);
      board.DigitalWrite(board.pinout.enable, false);
      if board.pinout.rw != NO_PIN {
        board.DigitalWrite(board.pinout.rw, false);
      }
    }

    /** Between calls Enable is low, and the backlight has a pin of its own, if it has one. */
    ghost predicate Valid()
      reads this, board
    {
      var p := board.pinout;
      && Apart(p) && !Level(board.levels, p.enable) && (p.rw == NO_PIN || !Level(board.levels, p.rw))
      && (backlightPin == NO_PIN || backlightPin !in {p.rs, p.rw, p.enable, p.d4, p.d5, p.d6, p.d7})
    }

    method Send(value: bv8, mode: Mode)
      requires Valid()
      modifies board
      ensures Valid()
      ensures board.log == old(board.log) + Strobes(value, mode)
      ensures board.pinout.rw in board.levels <==> board.pinout.rw != 255 || old(255 in board.levels)
    {
      hide PinStrobe;
      UpperNibble(value);
      board.DigitalWrite(board.pinout.rs, mode == DATA);
      if board.pinout.rw != NO_PIN {
        board.DigitalWrite(board.pinout.rw, false);
      }
      if mode != FOUR_BITS {
        WriteNbits(value >> 4);
      }
      WriteNbits(value);
    }

    /** Puts a nibble on the data pins, and pulses Enable. */
    method WriteNbits(value: bv8)
      requires Valid()
      modifies board
      ensures Valid() && Level(board.levels, board.pinout.rs) == old(Level(board.levels, board.pinout.rs))
      ensures board.log == old(board.log) + [Strobe(Level(board.levels, board.pinout.rs), value & 0x0F)]
      ensures board.pinout.rw in board.levels <==> old(board.pinout.rw in board.levels)
      ensures var p := board.pinout;
              && (Level(board.levels, p.d4) <==> Has(value, 0x01)) && (Level(board.levels, p.d5) <==> Has(value, 0x02))
              && (Level(board.levels, p.d6) <==> Has(value, 0x04)) && (Level(board.levels, p.d7) <==> Has(value, 0x08))
    {
      hide Has, Shifted, PinStrobe, NibbleOf, Apart, DataPin;
      ghost var p := board.pinout;
      for i := 0 to 4
        invariant Valid() && Level(board.levels, p.rs) == old(Level(board.levels, p.rs))
        invariant board.log == old(board.log)
        invariant board.pinout.rw in board.levels <==> old(board.pinout.rw in board.levels)
        invariant forall j :: 0 <= j < i ==> Level(board.levels, DataPin(p, j)) == Has(Shifted(value, j), 0x01)
      {
        DataPinsApart(p, i);
        board.DigitalWrite(DataPin(board.pinout, i), Has(Shifted(value, i), 0x01));
      }
      ShiftedBits(value);
      DataPinsAre(p);
      ghost var levels := board.levels;
      assert Level(levels, DataPin(p, 0)) == Has(value, 0x01) && Level(levels, DataPin(p, 1)) == Has(value, 0x02);
      assert Level(levels, DataPin(p, 2)) == Has(value, 0x04) && Level(levels, DataPin(p, 3)) == Has(value, 0x08);
      board.DigitalWrite(board.pinout.enable, true);
      OnData(p, levels, value);
      board.DigitalWrite(board.pinout.enable, false);
    }

    method SetBacklightPin(pin: nat, polarity: Polarity, hasPwm: bool)
      requires Valid() && board.pinout.rw != pin && pin !in {board.pinout.rs, board.pinout.enable}
      requires pin !in {board.pinout.d4, board.pinout.d5, board.pinout.d6, board.pinout.d7}
      modifies this, board
      ensures Valid() && backlightPin == pin && this.polarity == polarity
      ensures board.log == old(board.log)
    {
      backlightPin := pin;
      this.polarity := polarity;
      SetBacklight(0, hasPwm);
    }

    /** Dims the backlight if its pin can, else switches it. */
    method SetBacklight(level: bv8, hasPwm: bool)
      requires Valid()
      modifies board
      ensures Valid() && board.log == old(board.log)
      ensures backlightPin != 255 && !hasPwm ==>
                (Level(board.levels, backlightPin) <==> (polarity == POSITIVE && level > 0) || (polarity == NEGATIVE && level == 0))
      ensures backlightPin != 255 && hasPwm ==>
                board.duty == old(board.duty)[backlightPin := if polarity == POSITIVE then level else 255 - level]
    {
      if backlightPin != NO_PIN {
        if hasPwm {
          if polarity == POSITIVE {
            board.AnalogWrite(backlightPin, level);
          } else {
            board.AnalogWrite(backlightPin, 255 - level);
          }
        } else if (level > 0 && polarity == POSITIVE) || (level == 0 && polarity == NEGATIVE) {
          board.DigitalWrite(backlightPin, true);
        } else {
          board.DigitalWrite(backlightPin, false);
        }
      }
    }

    method Perform(calls: seq<Call>, hasPwm: bool)
      requires Valid()
      modifies board
      ensures Valid()
      ensures board.log == old(board.log) + Delivered(calls)
    {
      hide Delivered, Strobes, Apart, Level;
      NothingDelivered();
      for i := 0 to |calls|
        invariant Valid()
        invariant board.log == old(board.log) + Delivered(calls[..i])
      {
        assert calls[..i + 1] == calls[..i] + [calls[i]];
        DeliveredSnoc(calls[..i], calls[i]);
        match calls[i]
        case Send(value, mode) => Send(value, mode);
        case SetBacklight(level) => SetBacklight(level, hasPwm);
      }
      assert calls[..|calls|] == calls;
    }
  }

  lemma DataPinsApart(p: Pinout, i: nat)
    requires Apart(p) && i < 4
    ensures DataPin(p, i) !in {p.rs, p.rw, p.enable} && forall j: nat :: j < i ==> DataPin(p, j) != DataPin(p, i)
  {
  }

  lemma DataPinsAre(p: Pinout)
    requires Apart(p)
    ensures DataPin(p, 0) == p.d4 && DataPin(p, 1) == p.d5 && DataPin(p, 2) == p.d6 && DataPin(p, 3) == p.d7
    ensures p.enable !in {p.rs, p.rw, p.d4, p.d5, p.d6, p.d7}
  {
  }

  lemma OnData(p: Pinout, levels: map<nat, bool>, value: bv8)
    requires Apart(p)
    requires Level(levels, p.d4) == Has(value, 0x01) && Level(levels, p.d5) == Has(value, 0x02)
    requires Level(levels, p.d6) == Has(value, 0x04) && Level(levels, p.d7) == Has(value, 0x08)
    ensures PinStrobe(p, levels[p.enable := true]) == Strobe(Level(levels, p.rs), value & 0x0F)
  {
    hide Has, NibbleOf;
    NibbleBits(value);
  }
}
