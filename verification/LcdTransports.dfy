/** Five transports, one display: the same calls give the same strobes, and the controllers behind them are the one that
    the driver was proved against. */
module LcdTransports {
  import opened Bits
  import opened Hd44780
  import opened LcdWiring
  import opened Options
  import Lcd
  import LcdParallel
  import LcdExpander
  import LcdShiftRegister

  /** The same calls on every driver: the displays are strobed with the same strobes in the same order. */
  method AllAgree(parallel: LcdParallel.LiquidCrystal, i2c: LcdExpander.LiquidCrystal_I2C, sr: LcdShiftRegister.LiquidCrystal_SR,
                  sr2w: LcdShiftRegister.LiquidCrystal_SR2W, sr3w: LcdShiftRegister.LiquidCrystal_SR3W,
                  calls: seq<Call>, hasPwm: bool)
    requires parallel.Valid() && i2c.Valid() && i2c.i2cio.initialised && sr.Valid() && sr2w.Valid() && sr3w.Valid()
    requires sr.wires != sr2w.wires && sr.wires != sr3w.wires && sr2w.wires != sr3w.wires
    requires parallel.board.log == i2c.i2cio.wire.log == sr.wires.log == sr2w.wires.log == sr3w.wires.log == []
    modifies parallel.board, i2c`backlightStsMask, i2c.i2cio`shadow, i2c.i2cio.wire, sr.wires, sr2w`blMask, sr2w.wires,
             sr3w`backlightStsMask, sr3w.wires
    ensures parallel.Valid() && i2c.Valid() && sr.Valid() && sr2w.Valid() && sr3w.Valid()
    ensures parallel.board.log == i2c.i2cio.wire.log == sr.wires.log == sr2w.wires.log == sr3w.wires.log == Delivered(calls)
  {
    hide Delivered, Distinct, Has;
    parallel.Perform(calls, hasPwm);
    i2c.Perform(calls);
    sr.Perform(calls);
    sr2w.Perform(calls);
    sr3w.Perform(calls);
  }

  /** A program that starts any of the displays, and then uses it as `user` does through the driver's own methods: on all
      five wires, whatever state their controllers were in, they end up as the driver believes. */
  method Follow(parallel: LcdParallel.LiquidCrystal, i2c: LcdExpander.LiquidCrystal_I2C, sr: LcdShiftRegister.LiquidCrystal_SR,
                sr2w: LcdShiftRegister.LiquidCrystal_SR2W, sr3w: LcdShiftRegister.LiquidCrystal_SR3W,
                user: Lcd.LCD, hasPwm: bool)
    requires parallel.Valid() && i2c.Valid() && i2c.i2cio.initialised && sr.Valid() && sr2w.Valid() && sr3w.Valid()
    requires sr.wires != sr2w.wires && sr.wires != sr3w.wires && sr2w.wires != sr3w.wires
    requires parallel.board.log == i2c.i2cio.wire.log == sr.wires.log == sr2w.wires.log == sr3w.wires.log == []
    modifies parallel.board, i2c`backlightStsMask, i2c.i2cio`shadow, i2c.i2cio.wire, sr.wires, sr2w`blMask, sr2w.wires,
             sr3w`backlightStsMask, sr3w.wires
    ensures Feed(user.found, parallel.board.log) == user.Panel() == Feed(user.found, i2c.i2cio.wire.log)
    ensures Feed(user.found, sr.wires.log) == user.Panel() == Feed(user.found, sr2w.wires.log)
    ensures Feed(user.found, sr3w.wires.log) == user.Panel()
  {
    hide Delivered, Feed, Distinct, Has;
    AllAgree(parallel, i2c, sr, sr2w, sr3w, user.calls, hasPwm);
  }

  /** Starting a display through any of the five: its controller, whatever state it was in, is in step afterwards and has
      received the setup commands whole. */
  method BeginOnAll(parallel: LcdParallel.LiquidCrystal, i2c: LcdExpander.LiquidCrystal_I2C, sr: LcdShiftRegister.LiquidCrystal_SR,
                    sr2w: LcdShiftRegister.LiquidCrystal_SR2W, sr3w: LcdShiftRegister.LiquidCrystal_SR3W,
                    found: Controller, cols: bv8, lines: nat, dotsize: bv8, hasPwm: bool)
    requires parallel.Valid() && i2c.Valid() && i2c.i2cio.initialised && sr.Valid() && sr2w.Valid() && sr3w.Valid()
    requires sr.wires != sr2w.wires && sr.wires != sr3w.wires && sr2w.wires != sr3w.wires
    requires parallel.board.log == i2c.i2cio.wire.log == sr.wires.log == sr2w.wires.log == sr3w.wires.log == []
    modifies parallel.board, i2c`backlightStsMask, i2c.i2cio`shadow, i2c.i2cio.wire, sr.wires, sr2w`blMask, sr2w.wires,
             sr3w`backlightStsMask, sr3w.wires
    ensures Started(found, parallel.board.log, lines, dotsize) && Started(found, i2c.i2cio.wire.log, lines, dotsize)
    ensures Started(found, sr.wires.log, lines, dotsize) && Started(found, sr2w.wires.log, lines, dotsize)
    ensures Started(found, sr3w.wires.log, lines, dotsize)
  {
    assert !Has(0, Lcd.NOT_FUNCTION);
    hide Delivered, Feed, Distinct, Has, Or, Lcd.DisplayFlags;
    var lcd := new Lcd.LCD(found);
    lcd.Begin(cols, lines, dotsize);
    Follow(parallel, i2c, sr, sr2w, sr3w, lcd, hasPwm);
  }

  /** What the initialisation leaves behind, at the end of any wires. */
  predicate Started(found: Controller, log: seq<Strobe>, lines: nat, dotsize: bv8) {
    var panel := Feed(found, log);
    && panel.mode == Aligned
    && panel.received == Feed(found, InitStrobes()).received +
                         [Byte(false, if lines > 1 then 0x28 else if lines == 1 && dotsize != 0 then 0x24 else 0x20),
                          Byte(false, 0x0C), Byte(false, 0x01), Byte(false, 0x06)]
    && Lcd.DisplayFlags(panel.received) == Some(0x04)
  }
}
