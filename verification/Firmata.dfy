/** Firmata: a parser fed one byte at a time, and the printer of the messages that it parses. */
module Firmata {
  import opened Arithmetic

  const MAX_DATA_BYTES := 64
  const DIGITAL_MESSAGE: Byte := 0x90
  const ANALOG_MESSAGE: Byte := 0xE0
  const REPORT_ANALOG: Byte := 0xC0
  const REPORT_DIGITAL: Byte := 0xD0
  const SET_PIN_MODE: Byte := 0xF4
  const SET_DIGITAL_PIN_VALUE: Byte := 0xF5
  const REPORT_VERSION: Byte := 0xF9
  const SYSTEM_RESET: Byte := 0xFF
  const START_SYSEX: Byte := 0xF0
  const END_SYSEX: Byte := 0xF7
  const STRING_DATA: Byte := 0x71
  const REPORT_FIRMWARE: Byte := 0x79

  /** What the parser calls, every callback being attached. */
  datatype Event =
    | Analog(pin: Byte, value: nat)
    | Digital(port: Byte, value: nat)
    | ReportAnalog(pin: Byte, on: Byte)
    | ReportDigital(port: Byte, on: Byte)
    | PinMode(pin: Byte, mode: Byte)
    | PinValue(pin: Byte, level: Byte)
    | Text(chars: seq<Byte>)
    | Sysex(command: Byte, argc: Byte, argv: seq<Byte>)    // `argv` points into the buffer, `argc` is how much of it counts
    | Reset
    | PrintVersion
    | PrintFirmware

  /** `stored` is preceded in memory by `channel`. */
  datatype Parser = Parser(waitForData: Byte, command: Byte, channel: Byte, stored: seq<Byte>, parsingSysex: bool, sysexBytesRead: nat)

  predicate Valid(p: Parser) {
    |p.stored| == MAX_DATA_BYTES && p.waitForData <= 2 && p.sysexBytesRead <= MAX_DATA_BYTES
  }

  /** There is room for a further byte of a sysex message. */
  predicate Fits(p: Parser, b: Byte) {
    p.parsingSysex && b != END_SYSEX ==> p.sysexBytesRead < MAX_DATA_BYTES
  }

  function Fresh(): Parser {
    Parser(0, 0, 0, seq(MAX_DATA_BYTES, _ => 0), false, 0)
  }

  // ---- strings ----

  /** The number of characters in `read` bytes, of which the first is the command. */
  function StringLength(read: nat): nat {
    if read == 0 then 0 else (read - 1) / 2
  }

  /** A byte put together again from its low seven bits and the one above them. */
  function Joined(low: Byte, high: Byte): Byte {
    (low as int + high as int * 128) % 256
  }

  /** The 14-bit value of two data bytes. */
  function Value14(high: Byte, low: Byte): nat {
    high as int * 128 + low as int
  }

  /** Character `k` of a message that is still as it came in. */
  function CharAt(stored: seq<Byte>, k: nat): Byte
    requires 2 * k + 2 < |stored|
  {
    Joined(stored[2 * k + 1], stored[2 * k + 2])
  }

  function Decoded(stored: seq<Byte>, n: nat): seq<Byte>
    requires 2 * n < |stored|
  {
    seq(|stored|, k requires 0 <= k < |stored| => if k < n then CharAt(stored, k) else stored[k])
  }

  /** Character `k` is put together from the two bytes that the message has for it; the rest of the buffer stays. */
  lemma DecodedIs(stored: seq<Byte>, n: nat)
    requires 2 * n < |stored|
    ensures |Decoded(stored, n)| == |stored|
    ensures forall k :: 0 <= k < n ==>
              Decoded(stored, n)[k] as int == (stored[2 * k + 1] as int + 128 * stored[2 * k + 2] as int) % 256
    ensures forall k :: n <= k < |stored| ==> Decoded(stored, n)[k] == stored[k]
  {
  }

  /** A null is added unless the byte before is one: for an empty string that is the byte in front of the buffer. */
  function Terminated(buffer: seq<Byte>, n: nat, inFront: Byte): seq<Byte>
    requires n < |buffer|
  {
    if (if n == 0 then inFront else buffer[n - 1]) != 0 then buffer[n := 0] else buffer
  }

  /** What is read of a buffer that is taken for a null-terminated string. */
  function CString(buffer: seq<Byte>): seq<Byte>
    decreases |buffer|
  {
    if buffer == [] || buffer[0] == 0 then [] else [buffer[0]] + CString(buffer[1..])
  }

  // ---- one byte ----

  function SysexDone(p: Parser): (Parser, seq<Event>)
    requires Valid(p)
  {
    if p.stored[0] == REPORT_FIRMWARE then (p, [PrintFirmware])
    else if p.stored[0] == STRING_DATA then
      var n := StringLength(p.sysexBytesRead);
      var buffer := Terminated(Decoded(p.stored, n), n, p.channel);
      (p.(stored := buffer), [Text(CString(buffer))])
    else (p, [Sysex(p.stored[0], DataBytes(p.sysexBytesRead), p.stored[1..])])
  }

  /** All bytes but the first, counted in a byte: 255 if there is not even that one. */
  function DataBytes(read: nat): Byte {
    (read + 255) % 256
  }

  /** The call for a message whose data bytes are in. */
  function Execute(p: Parser): seq<Event>
    requires Valid(p)
  {
    var value := Value14(p.stored[0], p.stored[1]);
    if p.command == ANALOG_MESSAGE then [Analog(p.channel, value)]
    else if p.command == DIGITAL_MESSAGE then [Digital(p.channel, value)]
    else if p.command == SET_PIN_MODE then [PinMode(p.stored[1], p.stored[0])]
    else if p.command == SET_DIGITAL_PIN_VALUE then [PinValue(p.stored[1], p.stored[0])]
    else if p.command == REPORT_ANALOG then [ReportAnalog(p.channel, p.stored[0])]
    else if p.command == REPORT_DIGITAL then [ReportDigital(p.channel, p.stored[0])]
    else []
  }

  /** Of a command below 0xF0, the low four bits are the channel. */
  function CommandOf(b: Byte): Byte {
    if b < 0xF0 then b - b % 16 else b
  }

  function OnCommand(p: Parser, b: Byte): (Parser, seq<Event>) {
    var q := if b < 0xF0 then p.(channel := b % 16) else p;
    var c := CommandOf(b);
    if c in {ANALOG_MESSAGE, DIGITAL_MESSAGE, SET_PIN_MODE, SET_DIGITAL_PIN_VALUE} then (q.(waitForData := 2, command := c), [])
    else if c in {REPORT_ANALOG, REPORT_DIGITAL} then (q.(waitForData := 1, command := c), [])
    else if c == START_SYSEX then (q.(parsingSysex := true, sysexBytesRead := 0), [])
    else if c == SYSTEM_RESET then (Fresh(), [Reset])
    else if c == REPORT_VERSION then (q, [PrintVersion])
    else (q, [])
  }

  function Step(p: Parser, b: Byte): (r: (Parser, seq<Event>))
    requires Valid(p) && Fits(p, b)
    ensures Valid(r.0)
  {
    if p.parsingSysex then
      if b == END_SYSEX then SysexDone(p.(parsingSysex := false))
      else (p.(stored := p.stored[p.sysexBytesRead := b], sysexBytesRead := p.sysexBytesRead + 1), [])
    else if p.waitForData > 0 && b < 128 then
      var w := p.waitForData - 1;
      var q := p.(waitForData := w, stored := p.stored[w := b]);
      if w == 0 && p.command != 0 then (q.(command := 0), Execute(q)) else (q, [])
    else OnCommand(p, b)
  }

  /** Every sysex message on the way fits the buffer. */
  predicate AllFit(p: Parser, bs: seq<Byte>)
    requires Valid(p)
    decreases |bs|
  {
    bs == [] || (Fits(p, bs[0]) && AllFit(Step(p, bs[0]).0, bs[1..]))
  }

  /** Whatever comes in, `waitForData` stays in 0..2: that is part of `Valid`. */
  function Run(p: Parser, bs: seq<Byte>): (r: (Parser, seq<Event>))
    requires Valid(p) && AllFit(p, bs)
    ensures Valid(r.0)
    decreases |bs|
  {
    if bs == [] then (p, [])
    else
      var (q, es) := Step(p, bs[0]);
      var (q', es') := Run(q, bs[1..]);
      (q', es + es')
  }

  class FirmataClass {
    var waitForData: Byte
    var executeMultiByteCommand: Byte
    var multiByteChannel: Byte
    const storedInputData: array<Byte>
    var parsingSysex: bool
    var sysexBytesRead: nat
    var events: seq<Event>     // the callbacks made
    var stream: seq<Byte>      // the bytes written

    constructor ()
      ensures State() == Fresh() && stream == [] && fresh(storedInputData) && events == []
    {
      storedInputData := new Byte[MAX_DATA_BYTES];
      events, stream := [], [];
      new;
      ClearState();    // a system reset, while no callback for it is attached
    }

    function State(): Parser
      reads this, storedInputData
    {
      Parser(waitForData, executeMultiByteCommand, multiByteChannel, storedInputData[..], parsingSysex, sysexBytesRead)
    }

    method ClearState()
      requires storedInputData.Length == MAX_DATA_BYTES
      modifies this`waitForData, this`executeMultiByteCommand, this`multiByteChannel, this`parsingSysex, this`sysexBytesRead,
               storedInputData
      ensures State() == Fresh()
    {
      waitForData, executeMultiByteCommand, multiByteChannel := 0, 0, 0;
      for i := 0 to MAX_DATA_BYTES
        invariant forall k :: 0 <= k < i ==> storedInputData[k] == 0
        invariant waitForData == executeMultiByteCommand == multiByteChannel == 0
      {
        storedInputData[i] := 0;
      }
      parsingSysex := false;
      sysexBytesRead := 0;
      assert storedInputData[..] == Fresh().stored;
    }

    method SystemReset()
      requires storedInputData.Length == MAX_DATA_BYTES
      modifies this`waitForData, this`executeMultiByteCommand, this`multiByteChannel, this`parsingSysex, this`sysexBytesRead,
               this`events, storedInputData
      ensures State() == Fresh() && events == old(events) + [Reset]
    {
      ClearState();
      events := events + [Reset];
    }

    /** Decodes a string in place: two bytes are read for every one that is written, and none is overwritten unread. */
    method DecodeString(bufferLength: nat)
      requires storedInputData.Length == MAX_DATA_BYTES && 2 * bufferLength < MAX_DATA_BYTES
      modifies storedInputData
      ensures storedInputData[..] == Decoded(old(storedInputData[..]), bufferLength)
    {
      ghost var was := storedInputData[..];
      var i, j := 1, 0;
      while j < bufferLength
        invariant 0 <= j <= bufferLength && i == 2 * j + 1
        invariant forall k :: 0 <= k < j ==> storedInputData[k] == CharAt(was, k)
        invariant forall k :: j <= k < MAX_DATA_BYTES ==> storedInputData[k] == was[k]
      {
        storedInputData[j] := storedInputData[i];
        i := i + 1;
        storedInputData[j] := Joined(storedInputData[j], storedInputData[i]);
        i := i + 1;
        j := j + 1;
      }
    }

    method ProcessSysexMessage()
      requires Valid(State())
      modifies this`events, storedInputData
      ensures State() == SysexDone(old(State())).0 && events == old(events) + SysexDone(old(State())).1
    {
      if storedInputData[0] == REPORT_FIRMWARE {
        events := events + [PrintFirmware];
      } else if storedInputData[0] == STRING_DATA {
        var bufferLength := if sysexBytesRead == 0 then 0 else (sysexBytesRead - 1) / 2;
        DecodeString(bufferLength);
        var last := if bufferLength == 0 then multiByteChannel else storedInputData[bufferLength - 1];
        if last != 0 {
          storedInputData[bufferLength] := 0;
        }
        events := events + [Text(CString(storedInputData[..]))];
      } else {
        events := events + [Sysex(storedInputData[0], DataBytes(sysexBytesRead), storedInputData[1..])];
      }
    }

    /** One byte of input. */
    method Parse(inputData: Byte)
      requires Valid(State()) && Fits(State(), inputData)
      modifies this`waitForData, this`executeMultiByteCommand, this`multiByteChannel, this`parsingSysex, this`sysexBytesRead,
               this`events, storedInputData
      ensures State() == Step(old(State()), inputData).0 && Valid(State())
      ensures events == old(events) + Step(old(State()), inputData).1
    {
      hide SysexDone, Fresh, Execute;
      if parsingSysex {
        if inputData == END_SYSEX {
          parsingSysex := false;
          ProcessSysexMessage();
        } else {
          storedInputData[sysexBytesRead] := inputData;
          sysexBytesRead := sysexBytesRead + 1;
        }
      } else if waitForData > 0 && inputData < 128 {
        waitForData := waitForData - 1;
        storedInputData[waitForData] := inputData;
        if waitForData == 0 && executeMultiByteCommand != 0 {
          ExecuteCommand();
          executeMultiByteCommand := 0;
        }
      } else {
        ParseCommand(inputData);
      }
    }

    method ExecuteCommand()
      requires Valid(State())
      modifies this`events
      ensures events == old(events) + Execute(State())
    {
      var command := executeMultiByteCommand;
      var value := Value14(storedInputData[0], storedInputData[1]);
      if command == ANALOG_MESSAGE {
        events := events + [Analog(multiByteChannel, value)];
      } else if command == DIGITAL_MESSAGE {
        events := events + [Digital(multiByteChannel, value)];
      } else if command == SET_PIN_MODE {
        events := events + [PinMode(storedInputData[1], storedInputData[0])];
      } else if command == SET_DIGITAL_PIN_VALUE {
        events := events + [PinValue(storedInputData[1], storedInputData[0])];
      } else if command == REPORT_ANALOG {
        events := events + [ReportAnalog(multiByteChannel, storedInputData[0])];
      } else if command == REPORT_DIGITAL {
        events := events + [ReportDigital(multiByteChannel, storedInputData[0])];
      }
    }

    method ParseCommand(inputData: Byte)
      requires Valid(State())
      modifies this`waitForData, this`executeMultiByteCommand, this`multiByteChannel, this`parsingSysex, this`sysexBytesRead,
               this`events, storedInputData
      ensures State() == OnCommand(old(State()), inputData).0
      ensures events == old(events) + OnCommand(old(State()), inputData).1
    {
      hide Fresh;
      var command := inputData;
      if inputData < 0xF0 {
        command := inputData - inputData % 16;
        multiByteChannel := inputData % 16;
      }
      if command == ANALOG_MESSAGE || command == DIGITAL_MESSAGE || command == SET_PIN_MODE || command == SET_DIGITAL_PIN_VALUE {
        waitForData := 2;
        executeMultiByteCommand := command;
      } else if command == REPORT_ANALOG || command == REPORT_DIGITAL {
        waitForData := 1;
        executeMultiByteCommand := command;
      } else if command == START_SYSEX {
        parsingSysex := true;
        sysexBytesRead := 0;
      } else if command == SYSTEM_RESET {
        SystemReset();
      } else if command == REPORT_VERSION {
        events := events + [PrintVersion];
      }
    }

    // ---- sending ----

    method SendValueAsTwo7bitBytes(value: int)
      modifies this`stream
      ensures stream == old(stream) + Two7bitBytes(value) == old(stream) + [value % 128, value / 128 % 128]
    {
      stream := stream + [value % 128];
      stream := stream + [value / 128 % 128];
    }

    method SendAnalog(pin: Byte, value: int)
      modifies this`stream
      ensures stream == old(stream) + AnalogBytes(pin, value)
      ensures stream == old(stream) + [0xE0 + pin % 16, value % 128, value / 128 % 128]
    {
      stream := stream + [ANALOG_MESSAGE + pin % 16];
      SendValueAsTwo7bitBytes(value);
    }

    method SendDigitalPort(portNumber: Byte, portData: int)
      modifies this`stream
      ensures stream == old(stream) + DigitalBytes(portNumber, portData)
      ensures stream == old(stream) + [0x90 + portNumber % 16, portData % 128, portData / 128 % 256]
    {
      LowSeven(portData);
      stream := stream + [DIGITAL_MESSAGE + portNumber % 16];
      stream := stream + [portData % 256 % 128];
      stream := stream + [portData / 128 % 256];
    }

    method SendSysex(command: Byte, bytec: Byte, bytev: seq<Byte>)
      requires bytec as int <= |bytev|
      modifies this`stream
      ensures stream == old(stream) + SysexBytes(command, bytev[..bytec])
    {
      stream := stream + [START_SYSEX];
      stream := stream + [command];
      for i := 0 to bytec
        invariant stream == old(stream) + [START_SYSEX, command] + Packed(bytev[..i])
      {
        PackedSnoc(bytev[..i], bytev[i]);
        assert bytev[..i + 1] == bytev[..i] + [bytev[i]];
        SendValueAsTwo7bitBytes(bytev[i]);
      }
      stream := stream + [END_SYSEX];
    }

    /** Up to the first null, and of that only as many characters as the length modulo 256, which is passed in a byte. */
    method SendString(chars: seq<Byte>)
      modifies this`stream
      ensures stream == old(stream) + StringBytes(chars)
    {
      var length := StrLen(chars);
      SendSysex(STRING_DATA, length % 256, chars);
      assert chars[..length % 256] == CString(chars)[..length % 256];
    }
  }

  // ---- what is sent ----

  lemma LowSeven(v: int)
    ensures v % 256 % 128 == v % 128
  {
    var q, r := v / 256, v % 256;
    assert v == 128 * (2 * q) + r;
  }

  /** Seven bits, and the seven above them, of a 16-bit value in two's complement. */
  function Two7bitBytes(value: int): seq<Byte> {
    [value % 128, value / 128 % 128]
  }

  function AnalogBytes(pin: Byte, value: int): seq<Byte> {
    [ANALOG_MESSAGE + pin % 16] + Two7bitBytes(value)
  }

  /** The upper byte is not cut to seven bits. */
  function DigitalBytes(port: Byte, data: int): seq<Byte> {
    [DIGITAL_MESSAGE + port % 16, data % 128, data / 128 % 256]
  }

  function Packed(bytes: seq<Byte>): seq<Byte>
    decreases |bytes|
  {
    if bytes == [] then [] else Two7bitBytes(bytes[0]) + Packed(bytes[1..])
  }

  function SysexBytes(command: Byte, bytes: seq<Byte>): seq<Byte> {
    [START_SYSEX, command] + Packed(bytes) + [END_SYSEX]
  }

  /** What is sent of a string. */
  function StringBytes(chars: seq<Byte>): seq<Byte> {
    var s := CString(chars);
    SysexBytes(STRING_DATA, s[..|s| % 256])
  }

  /** A string without a null that is not too long is sent whole. */
  lemma WholeString(chars: seq<Byte>)
    requires |chars| < 256 && 0 !in chars
    ensures StringBytes(chars) == SysexBytes(STRING_DATA, chars)
  {
    CStringWhole(chars);
    assert chars[..|chars|] == chars;
  }

  lemma {:induction false} CStringWhole(chars: seq<Byte>)
    ensures CString(chars) == chars <==> 0 !in chars
    decreases |chars|
  {
    if chars != [] {
      CStringWhole(chars[1..]);
      if chars[0] != 0 {
        assert chars == [chars[0]] + chars[1..];
        assert CString(chars)[1..] == CString(chars[1..]);
      }
    }
  }

  /** It ends at the first null, if there is one. */
  lemma {:induction false} CStringIs(buffer: seq<Byte>)
    ensures CString(buffer) <= buffer && 0 !in CString(buffer)
    ensures |CString(buffer)| < |buffer| ==> buffer[|CString(buffer)|] == 0
    decreases |buffer|
  {
    if buffer != [] && buffer[0] != 0 {
      CStringIs(buffer[1..]);
      assert buffer == [buffer[0]] + buffer[1..];
    }
  }

  /** The library's count of the characters before the first null. */
  method StrLen(chars: seq<Byte>) returns (length: nat)
    ensures length == |CString(chars)| <= |chars| && chars[..length] == CString(chars)
  {
    length := 0;
    while length < |chars| && chars[length] != 0
      invariant length <= |chars| && CString(chars) == chars[..length] + CString(chars[length..])
    {
      assert chars[length..][1..] == chars[length + 1..];
      assert chars[..length + 1] == chars[..length] + [chars[length]];
      length := length + 1;
    }
  }

  lemma {:induction false} PackedSnoc(bytes: seq<Byte>, b: Byte)
    ensures Packed(bytes + [b]) == Packed(bytes) + Two7bitBytes(b)
    decreases |bytes|
  {
    if bytes == [] {
      assert ([] + [b])[1..] == [];
    } else {
      assert (bytes + [b])[1..] == bytes[1..] + [b];
      PackedSnoc(bytes[1..], b);
    }
  }
}
