/** The base class of the liquid crystal drivers, on a display wired with four data lines. */
module Lcd {
  import opened Bits
  import opened Options
  import opened Hd44780

  const LCD_CLEARDISPLAY: bv8 := 0x01
  const LCD_RETURNHOME: bv8 := 0x02
  const LCD_ENTRYMODESET: bv8 := 0x04
  const LCD_DISPLAYCONTROL: bv8 := 0x08
  const LCD_CURSORSHIFT: bv8 := 0x10
  const LCD_FUNCTIONSET: bv8 := 0x20
  const LCD_SETCGRAMADDR: bv8 := 0x40
  const LCD_SETDDRAMADDR: bv8 := 0x80
  const LCD_ENTRYLEFT: bv8 := 0x02
  const LCD_ENTRYSHIFTINCREMENT: bv8 := 0x01
  const LCD_DISPLAYON: bv8 := 0x04
  const LCD_CURSORON: bv8 := 0x02
  const LCD_BLINKON: bv8 := 0x01
  const LCD_DISPLAYMOVE: bv8 := 0x08
  const LCD_MOVERIGHT: bv8 := 0x04
  const LCD_2LINE: bv8 := 0x08
  const LCD_5x10DOTS: bv8 := 0x04
  const LCD_5x8DOTS: bv8 := 0x00

  // ---- where the cursor can go ----

  function RowOffset(cols: bv8, lines: nat, row: nat): bv8
    requires row < 4
  {
    if cols == 16 && lines == 4 then [0x00, 0x40, 0x10, 0x50][row] else [0x00, 0x40, 0x14, 0x54][row]
  }

  /** The address a cursor position is sent as: rows past the last one stand for the last one. */
  function CursorAddress(cols: bv8, lines: nat, col: bv8, row: nat): bv8
    requires 1 <= lines <= 4
  {
    AddressIn(col, RowOffset(cols, lines, if row >= lines then lines - 1 else row))
  }

  function AddressIn(col: bv8, offset: bv8): bv8 {
    col + offset
  }

  /** Four rows lie behind each other in pairs: row 2 follows row 0, and row 3 row 1. */
  lemma CursorAddressIs(cols: bv8, lines: nat, col: bv8, row: nat)
    requires 1 <= lines <= 4
    ensures CursorAddress(cols, lines, col, row) ==
            var r, large := if row >= lines then lines - 1 else row, cols == 16 && lines == 4;
            col + if r == 0 then 0x00 else if r == 1 then 0x40 else if r == 2 then (if large then 0x10 else 0x14)
                  else if large then 0x50 else 0x54
  {
  }

  predicate Exists(a: bv8) {
    a < 0x28 || 0x40 <= a < 0x68
  }

  lemma ExistsMeans(a: bv8)
    ensures Exists(a) <==> a < 0x28 || 0x40 <= a < 0x68
  {
  }

  /** A display has at most 40 columns, or 20 if it has more than two lines; its controller, 40 characters for each of two
      lines. Different positions on the display have different addresses, and all of them exist in the controller. */
  lemma CursorsDistinct(cols: bv8, lines: nat, col: bv8, row: nat, col': bv8, row': nat)
    requires 1 <= lines <= 4 && cols <= if lines <= 2 then 40 else 20
    requires col < cols && row < lines && col' < cols && row' < lines
    ensures CursorAddress(cols, lines, col, row) == CursorAddress(cols, lines, col', row') <==> col == col' && row == row'
    ensures var a := CursorAddress(cols, lines, col, row); a < 0x28 || 0x40 <= a < 0x68
  {
    hide RowOffset, Offset, Width, AddressIn, Exists;
    InWidth(cols, lines, col, row);
    InWidth(cols, lines, col', row');
    CursorBits(lines <= 2, cols == 16 && lines == 4, col, row, col', row');
    ExistsMeans(CursorAddress(cols, lines, col, row));
    OffsetIs(cols, lines, row);
    OffsetIs(cols, lines, row');
  }

  lemma InWidth(cols: bv8, lines: nat, col: bv8, row: nat)
    requires 1 <= lines <= 4 && (cols <= if lines <= 2 then 40 else 20) && col < cols && row < lines
    ensures 1 <= lines <= 4 && row < lines && col < Width(lines <= 2, cols == 16 && lines == 4)
  {
  }

  lemma OffsetIs(cols: bv8, lines: nat, row: nat)
    requires row < 4
    ensures RowOffset(cols, lines, row) == Offset(cols == 16 && lines == 4, row)
  {
  }

  function Offset(large: bool, row: nat): bv8 {
    if row == 0 then 0x00 else if row == 1 then 0x40 else if row == 2 then (if large then 0x10 else 0x14)
    else if large then 0x50 else 0x54
  }

  /** The columns that a display has for its number of lines. */
  function Width(two: bool, large: bool): bv8 {
    if two then 40 else if large then 16 else 20
  }

  lemma CursorBits(two: bool, large: bool, col: bv8, row: nat, col': bv8, row': nat)
    requires row < 4 && row' < 4 && (two ==> row < 2 && row' < 2 && !large)
    requires col < Width(two, large) && col' < Width(two, large)
    ensures AddressIn(col, Offset(large, row)) == AddressIn(col', Offset(large, row')) <==> col == col' && row == row'
    ensures Exists(AddressIn(col, Offset(large, row)))
  {
    hide Width, AddressIn, Offset, Exists;
    AddressExists(two, large, col, row);
    if row == row' {
      SameRow(col, col', Offset(large, row));
    } else {
      RankUnique(row, row');
      if RowRank(row) < RowRank(row') {
        OtherRow(two, large, col, row, col', row');
      } else {
        OtherRow(two, large, col', row', col, row);
      }
    }
  }

  lemma AddressExists(two: bool, large: bool, col: bv8, row: nat)
    requires row < 4 && (two ==> row < 2 && !large) && col < Width(two, large)
    ensures Exists(AddressIn(col, Offset(large, row)))
  {
    if row == 0 {
      assert Offset(large, row) == 0x00;
    } else if row == 1 {
      assert Offset(large, row) == 0x40;
    } else if row == 2 {
      assert Offset(large, row) == if large then 0x10 else 0x14;
    } else {
      assert Offset(large, row) == if large then 0x50 else 0x54;
    }
  }

  lemma SameRow(col: bv8, col': bv8, offset: bv8)
    ensures AddressIn(col, offset) == AddressIn(col', offset) <==> col == col'
  {
  }

  /** The rows in the order of their addresses. */
  function RowRank(row: nat): nat {
    if row == 0 then 0 else if row == 2 then 1 else if row == 1 then 2 else row
  }

  lemma RankUnique(row: nat, row': nat)
    requires row < 4 && row' < 4 && row != row'
    ensures RowRank(row) != RowRank(row')
  {
  }

  lemma InRow(col: bv8, width: bv8, offset: bv8)
    requires width <= 40 && col < width && offset <= 0x54
    ensures offset <= AddressIn(col, offset) < AddressIn(width, offset)
  {
  }

  /** Rows as long as the display is wide do not reach into each other. */
  lemma RowsApart(two: bool, large: bool, row: nat, row': nat)
    requires row < 4 && row' < 4 && RowRank(row) < RowRank(row') && (two ==> row < 2 && row' < 2 && !large)
    ensures Offset(large, row) <= 0x54 && Offset(large, row') <= 0x54
    ensures AddressIn(Width(two, large), Offset(large, row)) <= Offset(large, row')
  {
    if row == 0 {
      assert Offset(large, row) == 0x00;
    } else if row == 2 {
      assert Offset(large, row) == if large then 0x10 else 0x14;
    } else {
      assert Offset(large, row) == 0x40 && row' == 3;
    }
  }

  lemma OtherRow(two: bool, large: bool, col: bv8, row: nat, col': bv8, row': nat)
    requires row < 4 && row' < 4 && RowRank(row) < RowRank(row') && (two ==> row < 2 && row' < 2 && !large)
    requires col < Width(two, large) && col' < Width(two, large)
    ensures AddressIn(col, Offset(large, row)) != AddressIn(col', Offset(large, row'))
  {
    assert Width(two, large) <= 40;
    hide Width, AddressIn, Offset;
    RowsApart(two, large, row, row');
    InRow(col, Width(two, large), Offset(large, row));
    InRow(col', Width(two, large), Offset(large, row'));
  }

  // ---- what the controller was last told about its display ----

  predicate IsDisplayControl(h: Heard) {
    h.Byte? && !h.rs && h.value & 0xF8 == LCD_DISPLAYCONTROL
  }

  /** The flags of the last display control command. */
  function DisplayFlags(received: seq<Heard>): Option<bv8>
    decreases |received|
  {
    if received == [] then None
    else
      var last := received[|received| - 1];
      if IsDisplayControl(last) then Some(last.value & 0x07) else DisplayFlags(received[..|received| - 1])
  }

  lemma DisplayFlagsSnoc(received: seq<Heard>, h: Heard)
    ensures DisplayFlags(received + [h]) == if IsDisplayControl(h) then Some(h.value & 0x07) else DisplayFlags(received)
  {
    assert (received + [h])[..|received|] == received;
  }

  /** The 10-dot font is for displays of one line only. */
  function SetFunction(displayfunction: bv8, lines: nat, dotsize: bv8): bv8 {
    if lines > 1 then Or(displayfunction, LCD_2LINE)
    else if lines == 1 && dotsize != LCD_5x8DOTS then Or(displayfunction, LCD_5x10DOTS)
    else displayfunction
  }

  function ShiftCommand(display: bool, right: bool): bv8 {
    Or(LCD_CURSORSHIFT, Or(If(display, LCD_DISPLAYMOVE), If(right, LCD_MOVERIGHT)))
  }

  /** The command that makes the controller take data for one of eight characters. */
  function CharacterCommand(location: bv8): bv8 {
    Or(LCD_SETCGRAMADDR, (location & 0x7) << 3)
  }

  // ---- the flags of each command have their own bits ----

  const NOT_FUNCTION: bv8 := 0xF3
  const NOT_CONTROL: bv8 := 0xF8
  const NOT_MODE: bv8 := 0xFC

  class LCD {
    var displayfunction: bv8
    var displaycontrol: bv8
    var displaymode: bv8
    var numlines: nat
    var cols: bv8
    var backlightLevel: bv8
    var calls: seq<Call>          // what has been asked of the transport, which every driver implements in its own way
    const found: Controller       // the controller at the other end of it, as it was found

    constructor (found: Controller)
      ensures this.found == found && Panel() == found && displayfunction == 0 && calls == []
    {
      this.found := found;
      calls := [];
      displayfunction := 0;
      new;
      NothingDelivered();
    }

    /** The controller by now, if the transport delivers its calls: that they all do is proved in `LcdTransports`. */
    ghost function Panel(): Controller
      reads this`calls
    {
      Feed(found, Delivered(calls))
    }

    /** Driver and controller agree where a byte begins, and the fields hold nothing but flags. */
    ghost predicate InStep()
      reads this
    {
      && Panel().mode == Aligned
      && !Has(displayfunction, NOT_FUNCTION) && !Has(displaycontrol, NOT_CONTROL) && !Has(displaymode, NOT_MODE)
    }

    /** The driver's idea of display, cursor and blinking is the controller's. */
    ghost predicate Shadowed()
      reads this
    {
      DisplayFlags(Panel().received) == Some(displaycontrol)
    }

    method Send(value: bv8, mode: Mode)
      modifies this`calls
      ensures calls == old(calls) + [Call.Send(value, mode)]
      ensures Panel() == Feed(old(Panel()), Strobes(value, mode))
    {
      hide Feed, Delivered, Strobes;
      DeliveredSnoc(calls, Call.Send(value, mode));
      FeedConcat(found, Delivered(calls), Strobes(value, mode));
      calls := calls + [Call.Send(value, mode)];
    }

    method SetBacklight(level: bv8)
      modifies this`backlightLevel, this`calls
      ensures backlightLevel == level && calls == old(calls) + [Call.SetBacklight(level)]
      ensures Panel() == old(Panel())
    {
      hide Feed, Delivered;
      DeliveredSnoc(calls, Call.SetBacklight(level));
      assert Delivered(calls) + [] == Delivered(calls);
      backlightLevel := level;
      calls := calls + [Call.SetBacklight(level)];
    }

    /** Any command is received whole; function set may leave the controller expecting eight lines. */
    method Command(value: bv8)
      requires Panel().mode == Aligned
      modifies this`calls
      ensures Panel() == Controller(if AsksForEight(false, value) then EightBit else Aligned,
                                    old(Panel()).received + [Byte(false, value)])
    {
      hide Feed, Delivered, AsksForEight;
      OneByte(Panel(), false, value);
      Send(value, COMMAND);
    }

    method Write(value: bv8)
      requires Panel().mode == Aligned
      modifies this`calls
      ensures Panel() == Controller(Aligned, old(Panel()).received + [Byte(true, value)])
    {
      DataAsksNothing(value);
      hide Feed, Delivered, AsksForEight;
      OneByte(Panel(), true, value);
      Send(value, DATA);
    }

    /** A command that is neither a function set for eight lines nor a display control. */
    method PlainCommand(value: bv8)
      requires Panel().mode == Aligned && Plain(value)
      modifies this`calls
      ensures Panel() == Controller(Aligned, old(Panel()).received + [Byte(false, value)])
      ensures old(Shadowed()) ==> Shadowed()
    {
      hide Feed, Delivered, AsksForEight, IsDisplayControl, DisplayFlags;
      DisplayFlagsSnoc(Panel().received, Byte(false, value));
      Command(value);
    }

    /** The half bytes of figure 24 of the data sheet, one by one. */
    method FourBitInit()
      modifies this`calls
      ensures calls == old(calls) + [Call.Send(0x03, FOUR_BITS), Call.Send(0x03, FOUR_BITS), Call.Send(0x03, FOUR_BITS),
                                     Call.Send(0x02, FOUR_BITS)]
      ensures Panel() == Feed(old(Panel()), InitStrobes()) && Panel().mode == Aligned
      ensures old(Panel()).received <= Panel().received
    {
      hide Feed, Delivered;
      Send(0x03, FOUR_BITS);
      Send(0x03, FOUR_BITS);
      Send(0x03, FOUR_BITS);
      Send(0x02, FOUR_BITS);
      DeliveredConcat(old(calls), InitCalls());
      InitDelivered();
      FeedConcat(found, Delivered(old(calls)), InitStrobes());
      Resynchronises(old(Panel()));
    }

    /** The number of lines, the font, a cleared display that is on, and text from left to right. */
    method SetUp()
      requires Panel().mode == Aligned && !Has(displayfunction, NOT_FUNCTION)
      modifies this`displaycontrol, this`displaymode, this`calls
      ensures Panel().mode == Aligned && Shadowed()
      ensures displaycontrol == 0x04 && displaymode == 0x02
      ensures Panel().received == old(Panel()).received + [Byte(false, Or(0x20, displayfunction)), Byte(false, 0x0C),
                                                           Byte(false, 0x01), Byte(false, 0x06)]
    {
      SetUpBytes();
      hide Feed, Delivered, AsksForEight, IsDisplayControl, Has, Or, Plain, DisplayFlags;
      FunctionSetIsFourBit(displayfunction);
      Command(Or(LCD_FUNCTIONSET, displayfunction));
      displaycontrol := LCD_DISPLAYON;
      Display();
      Clear();
      displaymode := LCD_ENTRYLEFT;
      EntryModeIsPlain(LCD_ENTRYLEFT);
      PlainCommand(Or(LCD_ENTRYMODESET, displaymode));
    }

    /** From any state of the controller: afterwards it is in step, and has received the setup commands whole. */
    method Begin(columns: bv8, lines: nat, dotsize: bv8)
      requires !Has(displayfunction, NOT_FUNCTION)
      modifies this
      ensures InStep() && Shadowed() && cols == columns && numlines == lines
      ensures displayfunction == Or(old(displayfunction), if lines > 1 then 0x08 else if lines == 1 && dotsize != 0 then 0x04 else 0)
      ensures displaycontrol == 0x04 && displaymode == 0x02 && backlightLevel == 255
      ensures Panel().received == Feed(old(Panel()), InitStrobes()).received +
                                  [Byte(false, Or(0x20, displayfunction)), Byte(false, 0x0C), Byte(false, 0x01), Byte(false, 0x06)]
      ensures old(displayfunction) == 0 ==>
                Or(0x20, displayfunction) == if lines > 1 then 0x28 else if lines == 1 && dotsize != 0 then 0x24 else 0x20
    {
      InitialFlags();
      FunctionBytes(displayfunction, lines, dotsize);
      hide Feed, Delivered, IsDisplayControl, Has, Or, DisplayFlags;
      SetFunctionFlags(displayfunction, lines, dotsize);
      if lines > 1 {
        displayfunction := Or(displayfunction, LCD_2LINE);
      }
      numlines := lines;
      cols := columns;
      if dotsize != LCD_5x8DOTS && lines == 1 {
        displayfunction := Or(displayfunction, LCD_5x10DOTS);
      }
      FourBitInit();
      SetUp();
      Backlight();
    }

    method Clear()
      requires Panel().mode == Aligned
      modifies this`calls
      ensures Panel() == Controller(Aligned, old(Panel()).received + [Byte(false, 0x01)])
      ensures old(Shadowed()) ==> Shadowed()
    {
      PlainCommand(LCD_CLEARDISPLAY);
    }

    method Home()
      requires InStep()
      modifies this`calls
      ensures InStep() && (old(Shadowed()) ==> Shadowed())
      ensures Panel().received == old(Panel()).received + [Byte(false, 0x02)]
    {
      PlainCommand(LCD_RETURNHOME);
    }

    /** The table of row offsets has four entries. */
    method SetCursor(col: bv8, row: nat)
      requires InStep() && 1 <= numlines <= 4
      modifies this`calls
      ensures InStep() && (old(Shadowed()) ==> Shadowed())
      ensures Panel().received == old(Panel()).received + [Byte(false, Or(0x80, CursorAddress(cols, numlines, col, row)))]
    {
      hide Feed, Delivered, AsksForEight, IsDisplayControl, RowOffset, AddressIn, Has, Or, Plain, DisplayFlags;
      var r := row;
      if r >= numlines {
        r := numlines - 1;    // rows start at 0
      }
      AddressIsPlain(AddressIn(col, RowOffset(cols, numlines, r)));
      PlainCommand(Or(LCD_SETDDRAMADDR, AddressIn(col, RowOffset(cols, numlines, r))));
    }

    /** Tells the controller the flags as they are now. */
    method SendDisplayControl()
      requires Panel().mode == Aligned && !Has(displaycontrol, NOT_CONTROL)
      modifies this`calls
      ensures Panel() == Controller(Aligned, old(Panel()).received + [Byte(false, Or(0x08, displaycontrol))])
      ensures Shadowed()
    {
      hide Feed, Delivered, AsksForEight, IsDisplayControl, Has, Or, DisplayFlags;
      ControlIsControl(displaycontrol);
      DisplayFlagsSnoc(Panel().received, Byte(false, Or(LCD_DISPLAYCONTROL, displaycontrol)));
      Command(Or(LCD_DISPLAYCONTROL, displaycontrol));
    }

    method Display()
      requires Panel().mode == Aligned && !Has(displaycontrol, NOT_CONTROL)
      modifies this`displaycontrol, this`calls
      ensures displaycontrol == Or(old(displaycontrol), 0x04) && !Has(displaycontrol, NOT_CONTROL)
      ensures Panel().mode == Aligned && Shadowed()
      ensures Panel().received == old(Panel()).received + [Byte(false, Or(0x08, displaycontrol))]
    {
      FlagsFit();
      hide Feed, Delivered, Has, Or, Without, DisplayFlags;
      StaysClear(displaycontrol, LCD_DISPLAYON, NOT_CONTROL);
      displaycontrol := Or(displaycontrol, LCD_DISPLAYON);
      SendDisplayControl();
    }

    method NoDisplay()
      requires InStep()
      modifies this`displaycontrol, this`calls
      ensures displaycontrol == Without(old(displaycontrol), 0x04) && InStep() && Shadowed()
      ensures Panel().received == old(Panel()).received + [Byte(false, Or(0x08, displaycontrol))]
    {
      FlagsFit();
      hide Feed, Delivered, Has, Or, Without, DisplayFlags;
      StaysClear(displaycontrol, LCD_DISPLAYON, NOT_CONTROL);
      displaycontrol := Without(displaycontrol, LCD_DISPLAYON);
      SendDisplayControl();
    }

    method Cursor()
      requires InStep()
      modifies this`displaycontrol, this`calls
      ensures displaycontrol == Or(old(displaycontrol), 0x02) && InStep() && Shadowed()
      ensures Panel().received == old(Panel()).received + [Byte(false, Or(0x08, displaycontrol))]
    {
      FlagsFit();
      hide Feed, Delivered, Has, Or, Without, DisplayFlags;
      StaysClear(displaycontrol, LCD_CURSORON, NOT_CONTROL);
      displaycontrol := Or(displaycontrol, LCD_CURSORON);
      SendDisplayControl();
    }

    method NoCursor()
      requires InStep()
      modifies this`displaycontrol, this`calls
      ensures displaycontrol == Without(old(displaycontrol), 0x02) && InStep() && Shadowed()
      ensures Panel().received == old(Panel()).received + [Byte(false, Or(0x08, displaycontrol))]
    {
      FlagsFit();
      hide Feed, Delivered, Has, Or, Without, DisplayFlags;
      StaysClear(displaycontrol, LCD_CURSORON, NOT_CONTROL);
      displaycontrol := Without(displaycontrol, LCD_CURSORON);
      SendDisplayControl();
    }

    method Blink()
      requires InStep()
      modifies this`displaycontrol, this`calls
      ensures displaycontrol == Or(old(displaycontrol), 0x01) && InStep() && Shadowed()
      ensures Panel().received == old(Panel()).received + [Byte(false, Or(0x08, displaycontrol))]
    {
      FlagsFit();
      hide Feed, Delivered, Has, Or, Without, DisplayFlags;
      StaysClear(displaycontrol, LCD_BLINKON, NOT_CONTROL);
      displaycontrol := Or(displaycontrol, LCD_BLINKON);
      SendDisplayControl();
    }

    method NoBlink()
      requires InStep()
      modifies this`displaycontrol, this`calls
      ensures displaycontrol == Without(old(displaycontrol), 0x01) && InStep() && Shadowed()
      ensures Panel().received == old(Panel()).received + [Byte(false, Or(0x08, displaycontrol))]
    {
      FlagsFit();
      hide Feed, Delivered, Has, Or, Without, DisplayFlags;
      StaysClear(displaycontrol, LCD_BLINKON, NOT_CONTROL);
      displaycontrol := Without(displaycontrol, LCD_BLINKON);
      SendDisplayControl();
    }

    /** Moves the display or the cursor, left or right. */
    method Shift(display: bool, right: bool)
      requires InStep()
      modifies this`calls
      ensures InStep() && (old(Shadowed()) ==> Shadowed())
      ensures Panel().received == old(Panel()).received + [Byte(false, ShiftCommand(display, right))]
    {
      hide Feed, Delivered, Has, ShiftCommand, Plain, DisplayFlags;
      ShiftIsPlain(display, right);
      PlainCommand(ShiftCommand(display, right));
    }

    method ScrollDisplayLeft()
      requires InStep()
      modifies this`calls
      ensures InStep() && (old(Shadowed()) ==> Shadowed())
      ensures Panel().received == old(Panel()).received + [Byte(false, 0x18)]
    {
      ShiftBytes();
      hide Feed, Delivered, Has, ShiftCommand, DisplayFlags;
      Shift(true, false);
    }

    method ScrollDisplayRight()
      requires InStep()
      modifies this`calls
      ensures InStep() && (old(Shadowed()) ==> Shadowed())
      ensures Panel().received == old(Panel()).received + [Byte(false, 0x1C)]
    {
      ShiftBytes();
      hide Feed, Delivered, Has, ShiftCommand, DisplayFlags;
      Shift(true, true);
    }

    method MoveCursorRight()
      requires InStep()
      modifies this`calls
      ensures InStep() && (old(Shadowed()) ==> Shadowed())
      ensures Panel().received == old(Panel()).received + [Byte(false, 0x14)]
    {
      ShiftBytes();
      hide Feed, Delivered, Has, ShiftCommand, DisplayFlags;
      Shift(false, true);
    }

    method MoveCursorLeft()
      requires InStep()
      modifies this`calls
      ensures InStep() && (old(Shadowed()) ==> Shadowed())
      ensures Panel().received == old(Panel()).received + [Byte(false, 0x10)]
    {
      ShiftBytes();
      hide Feed, Delivered, Has, ShiftCommand, DisplayFlags;
      Shift(false, false);
    }

    method LeftToRight()
      requires InStep()
      modifies this`displaymode, this`calls
      ensures InStep() && (old(Shadowed()) ==> Shadowed()) && displaymode == Or(old(displaymode), 0x02)
      ensures Panel().received == old(Panel()).received + [Byte(false, Or(0x04, displaymode))]
    {
      InitialFlags();
      hide Feed, Delivered, Has, Or, Without, DisplayFlags;
      SetEntryMode(LCD_ENTRYLEFT, true);
    }

    method RightToLeft()
      requires InStep()
      modifies this`displaymode, this`calls
      ensures InStep() && (old(Shadowed()) ==> Shadowed()) && displaymode == Without(old(displaymode), 0x02)
      ensures Panel().received == old(Panel()).received + [Byte(false, Or(0x04, displaymode))]
    {
      InitialFlags();
      hide Feed, Delivered, Has, Or, Without, DisplayFlags;
      SetEntryMode(LCD_ENTRYLEFT, false);
    }

    method Autoscroll()
      requires InStep()
      modifies this`displaymode, this`calls
      ensures InStep() && (old(Shadowed()) ==> Shadowed()) && displaymode == Or(old(displaymode), 0x01)
      ensures Panel().received == old(Panel()).received + [Byte(false, Or(0x04, displaymode))]
    {
      InitialFlags();
      hide Feed, Delivered, Has, Or, Without, DisplayFlags;
      SetEntryMode(LCD_ENTRYSHIFTINCREMENT, true);
    }

    method NoAutoscroll()
      requires InStep()
      modifies this`displaymode, this`calls
      ensures InStep() && (old(Shadowed()) ==> Shadowed()) && displaymode == Without(old(displaymode), 0x01)
      ensures Panel().received == old(Panel()).received + [Byte(false, Or(0x04, displaymode))]
    {
      InitialFlags();
      hide Feed, Delivered, Has, Or, Without, DisplayFlags;
      SetEntryMode(LCD_ENTRYSHIFTINCREMENT, false);
    }

    /** Sets or clears a flag of the entry mode, and tells the controller. */
    method SetEntryMode(flag: bv8, on: bool)
      requires InStep() && !Has(flag, NOT_MODE)
      modifies this`displaymode, this`calls
      ensures InStep() && (old(Shadowed()) ==> Shadowed())
      ensures displaymode == if on then Or(old(displaymode), flag) else Without(old(displaymode), flag)
      ensures Panel().received == old(Panel()).received + [Byte(false, Or(0x04, displaymode))]
    {
      hide Feed, Delivered, Has, Or, Without, Plain, DisplayFlags;
      StaysClear(displaymode, flag, NOT_MODE);
      if on {
        displaymode := Or(displaymode, flag);
      } else {
        displaymode := Without(displaymode, flag);
      }
      EntryModeIsPlain(displaymode);
      PlainCommand(Or(LCD_ENTRYMODESET, displaymode));
    }

    /** Writes a character's eight rows to the character memory. */
    method CreateChar(location: bv8, charmap: array<bv8>)
      requires InStep() && charmap.Length >= 8
      modifies this`calls
      ensures InStep() && (old(Shadowed()) ==> Shadowed())
      ensures Panel().received == old(Panel()).received + [Byte(false, 0x40 + 8 * (location & 0x7))] + Rows(charmap[..8])
    {
      CharacterIs(location);
      hide Feed, Delivered, Has, CharacterCommand, Plain, DisplayFlags, Rows;
      CharacterIsPlain(location);
      PlainCommand(CharacterCommand(location));
      WriteRows(charmap);
    }

    method WriteRows(charmap: array<bv8>)
      requires Panel().mode == Aligned && charmap.Length >= 8
      modifies this`calls
      ensures Panel().mode == Aligned && (old(Shadowed()) ==> Shadowed())
      ensures Panel().received == old(Panel()).received + Rows(charmap[..8])
    {
      hide Feed, Delivered, IsDisplayControl, DisplayFlags;
      ghost var start := Panel().received;
      for i := 0 to 8
        invariant Panel().mode == Aligned && Panel().received == start + Rows(charmap[..i])
        invariant DisplayFlags(Panel().received) == DisplayFlags(start)
      {
        DisplayFlagsSnoc(Panel().received, Byte(true, charmap[i]));
        DataIsPlain(charmap[i]);
        Write(charmap[i]);
        assert Rows(charmap[..i + 1]) == Rows(charmap[..i]) + [Byte(true, charmap[i])];
      }
    }

    method Backlight()
      modifies this`backlightLevel, this`calls
      ensures backlightLevel == 255 && calls == old(calls) + [Call.SetBacklight(255)] && Panel() == old(Panel())
    {
      SetBacklight(255);
    }

    /** Display and backlight together. */
    method On()
      requires InStep()
      modifies this`displaycontrol, this`backlightLevel, this`calls
      ensures displaycontrol == Or(old(displaycontrol), 0x04) && InStep() && Shadowed() && backlightLevel == 255
      ensures Panel().received == old(Panel()).received + [Byte(false, Or(0x08, displaycontrol))]
    {
      hide Feed, Delivered, Has, Or, DisplayFlags;
      Display();
      Backlight();
    }

    method Off()
      requires InStep()
      modifies this`displaycontrol, this`backlightLevel, this`calls
      ensures displaycontrol == Without(old(displaycontrol), 0x04) && InStep() && Shadowed() && backlightLevel == 0
      ensures Panel().received == old(Panel()).received + [Byte(false, Or(0x08, displaycontrol))]
    {
      hide Feed, Delivered, Has, Or, Without, DisplayFlags;
      NoBacklight();
      NoDisplay();
    }

    method NoBacklight()
      modifies this`backlightLevel, this`calls
      ensures backlightLevel == 0 && calls == old(calls) + [Call.SetBacklight(0)] && Panel() == old(Panel())
    {
      SetBacklight(0);
    }
  }

  /** As data, one byte after the other. */
  function Rows(charmap: seq<bv8>): (r: seq<Heard>)
    ensures |r| == |charmap| && forall i :: 0 <= i < |charmap| ==> r[i] == Byte(true, charmap[i])
  {
    seq(|charmap|, i requires 0 <= i < |charmap| => Byte(true, charmap[i]))
  }

  // ---- the bytes of the commands ----

  /** None of the driver's own commands asks for eight lines, and only one kind of them is a display control. */
  predicate Plain(v: bv8) {
    !AsksForEight(false, v) && !IsDisplayControl(Byte(false, v))
  }

  lemma SetUpBytes()
    ensures Plain(LCD_CLEARDISPLAY) && Or(LCD_DISPLAYCONTROL, Or(LCD_DISPLAYON, LCD_DISPLAYON)) == 0x0C
    ensures Or(LCD_ENTRYMODESET, LCD_ENTRYLEFT) == 0x06 && Or(LCD_DISPLAYON, LCD_DISPLAYON) == LCD_DISPLAYON
    ensures !Has(LCD_DISPLAYON, NOT_CONTROL) && !Has(LCD_ENTRYLEFT, NOT_MODE)
  {
  }

  /** Two lines or more; one line of larger characters; one line of the usual ones. */
  lemma FunctionBytes(displayfunction: bv8, lines: nat, dotsize: bv8)
    ensures SetFunction(displayfunction, lines, dotsize) ==
            Or(displayfunction, if lines > 1 then 0x08 else if lines == 1 && dotsize != 0 then 0x04 else 0)
    ensures displayfunction == 0 ==>
              Or(0x20, SetFunction(displayfunction, lines, dotsize)) ==
              if lines > 1 then 0x28 else if lines == 1 && dotsize != 0 then 0x24 else 0x20
  {
  }

  lemma InitialFlags()
    ensures !Has(LCD_DISPLAYON, NOT_CONTROL) && !Has(LCD_ENTRYLEFT, NOT_MODE) && !Has(LCD_ENTRYSHIFTINCREMENT, NOT_MODE)
  {
  }

  lemma ShiftBytes()
    ensures ShiftCommand(true, false) == 0x18 && ShiftCommand(true, true) == 0x1C
    ensures ShiftCommand(false, false) == 0x10 && ShiftCommand(false, true) == 0x14
  {
  }

  lemma FlagsFit()
    ensures !Has(LCD_DISPLAYON, NOT_CONTROL) && !Has(LCD_CURSORON, NOT_CONTROL) && !Has(LCD_BLINKON, NOT_CONTROL)
  {
  }

  lemma FunctionSetIsFourBit(displayfunction: bv8)
    requires !Has(displayfunction, NOT_FUNCTION)
    ensures !AsksForEight(false, Or(LCD_FUNCTIONSET, displayfunction))
  {
  }

  lemma SetFunctionFlags(displayfunction: bv8, lines: nat, dotsize: bv8)
    requires !Has(displayfunction, NOT_FUNCTION)
    ensures !Has(SetFunction(displayfunction, lines, dotsize), NOT_FUNCTION)
  {
  }

  lemma AddressIsPlain(a: bv8)
    ensures Plain(Or(LCD_SETDDRAMADDR, a))
  {
  }

  lemma ShiftIsPlain(display: bool, right: bool)
    ensures Plain(ShiftCommand(display, right))
  {
    ShiftBytes();
  }

  lemma ControlIsControl(flags: bv8)
    requires !Has(flags, NOT_CONTROL)
    ensures var v := Or(LCD_DISPLAYCONTROL, flags);
            !AsksForEight(false, v) && IsDisplayControl(Byte(false, v)) && v & 0x07 == flags
  {
  }

  lemma EntryModeIsPlain(flags: bv8)
    requires !Has(flags, NOT_MODE)
    ensures Plain(Or(LCD_ENTRYMODESET, flags))
  {
  }

  lemma DataIsPlain(v: bv8)
    ensures !IsDisplayControl(Byte(true, v))
  {
  }

  lemma DataAsksNothing(v: bv8)
    ensures !AsksForEight(true, v)
  {
  }

  /** Eight rows for each character. */
  lemma CharacterIs(location: bv8)
    ensures CharacterCommand(location) == 0x40 + 8 * (location & 0x7)
  {
  }

  lemma CharacterIsPlain(location: bv8)
    ensures Plain(CharacterCommand(location))
  {
  }
}
