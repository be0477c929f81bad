/** Firmata from printer to parser: round trips, their exact limits, and resynchronisation. */
module FirmataLink {
  import opened Arithmetic
  import opened Firmata

  // ---- runs ----

  lemma {:induction false} RunConcat(p: Parser, a: seq<Byte>, b: seq<Byte>)
    requires Valid(p)
    ensures AllFit(p, a + b) <==> AllFit(p, a) && AllFit(Run(p, a).0, b)
    ensures AllFit(p, a + b) ==>
              && Run(p, a + b).0 == Run(Run(p, a).0, b).0
              && Run(p, a + b).1 == Run(p, a).1 + Run(Run(p, a).0, b).1
    decreases |a|
  {
    hide Step;
    if a == [] {
      assert a + b == b;
    } else {
      assert (a + b)[0] == a[0] && (a + b)[1..] == a[1..] + b;
      if Fits(p, a[0]) {
        RunConcat(Step(p, a[0]).0, a[1..], b);
      }
    }
  }

  lemma RunNothing(p: Parser)
    requires Valid(p)
    ensures AllFit(p, []) && Run(p, []) == (p, [])
  {
  }

  lemma RunFirst(p: Parser, b: Byte, bs: seq<Byte>)
    requires Valid(p) && Fits(p, b)
    ensures AllFit(p, [b] + bs) <==> AllFit(Step(p, b).0, bs)
    ensures AllFit(p, [b] + bs) ==>
              && Run(p, [b] + bs).0 == Run(Step(p, b).0, bs).0
              && Run(p, [b] + bs).1 == Step(p, b).1 + Run(Step(p, b).0, bs).1
  {
    hide Step;
    assert ([b] + bs)[1..] == bs;
  }

  // ---- channel messages ----

  predicate TwoDataBytes(b: Byte) {
    CommandOf(b) in {ANALOG_MESSAGE, DIGITAL_MESSAGE, SET_PIN_MODE, SET_DIGITAL_PIN_VALUE}
  }

  predicate OneDataByte(b: Byte) {
    CommandOf(b) in {REPORT_ANALOG, REPORT_DIGITAL}
  }

  /** A complete channel message: a command and as many data bytes as it needs. */
  predicate IsChannelMessage(m: seq<Byte>) {
    && m != [] && m[0] >= 128
    && (if TwoDataBytes(m[0]) then |m| == 3 && m[1] < 128 && m[2] < 128 else OneDataByte(m[0]) && |m| == 2 && m[1] < 128)
  }

  /** What the message says. */
  function Said(m: seq<Byte>): Event
    requires IsChannelMessage(m)
  {
    var c, channel := CommandOf(m[0]), m[0] % 16;
    if c == ANALOG_MESSAGE then Analog(channel, m[1] as int + m[2] as int * 128)
    else if c == DIGITAL_MESSAGE then Digital(channel, m[1] as int + m[2] as int * 128)
    else if c == SET_PIN_MODE then PinMode(m[1], m[2])
    else if c == SET_DIGITAL_PIN_VALUE then PinValue(m[1], m[2])
    else if c == REPORT_ANALOG then ReportAnalog(channel, m[1])
    else ReportDigital(channel, m[1])
  }

  predicate Idle(p: Parser) {
    Valid(p) && !p.parsingSysex && p.waitForData == 0
  }

  lemma CommandBytes(b: Byte)
    ensures (TwoDataBytes(b) || OneDataByte(b)) && b >= 128 ==> b >= 0xC0 || CommandOf(b) == 0x90
    ensures TwoDataBytes(b) ==> !OneDataByte(b)
    ensures b < 0xF0 ==> CommandOf(b) < 0xF0
  {
  }

  /** The command byte, whatever was pending. */
  lemma CommandTaken(p: Parser, b: Byte)
    requires Valid(p) && !p.parsingSysex && b >= 128 && (TwoDataBytes(b) || OneDataByte(b))
    ensures Fits(p, b)
    ensures Step(p, b) == (p.(waitForData := if TwoDataBytes(b) then 2 else 1, command := CommandOf(b),
                              channel := if b < 0xF0 then b % 16 else p.channel), [])
  {
  }

  /** From any state outside a sysex message, in the middle of another message or not, a complete channel message is
      delivered, and leaves the parser idle. */
  lemma ChannelMessageParsed(p: Parser, m: seq<Byte>)
    requires Valid(p) && !p.parsingSysex && IsChannelMessage(m)
    ensures AllFit(p, m) && Run(p, m).1 == [Said(m)] && Idle(Run(p, m).0)
  {
    CommandTaken(p, m[0]);
    var q := Step(p, m[0]).0;
    var rest := m[1..];
    assert m == [m[0]] + rest;
    RunFirst(p, m[0], rest);
    if TwoDataBytes(m[0]) {
      assert rest == [m[1]] + [m[2]] && [m[2]] + [] == [m[2]];
      var q1 := Step(q, m[1]).0;
      assert q1 == q.(waitForData := 1, stored := q.stored[1 := m[1]]);
      RunFirst(q, m[1], [m[2]]);
      RunFirst(q1, m[2], []);
      RunNothing(Step(q1, m[2]).0);
      LastByte(q1, m);
    } else {
      assert rest == [m[1]] + [];
      RunFirst(q, m[1], []);
      RunNothing(Step(q, m[1]).0);
      LastByte(q, m);
    }
  }

  lemma LastByte(q: Parser, m: seq<Byte>)
    requires Valid(q) && !q.parsingSysex && IsChannelMessage(m) && q.waitForData == 1
    requires q.command == CommandOf(m[0]) && (m[0] < 0xF0 ==> q.channel == m[0] % 16)
    requires TwoDataBytes(m[0]) ==> q.stored[1] == m[1]
    ensures var r := Step(q, m[|m| - 1]);
            r.1 == [Said(m)] && Idle(r.0)
  {
    CommandBytes(m[0]);
  }

  /** Nothing but its start byte puts the parser into a sysex message. */
  lemma {:induction false} StaysOutOfSysex(p: Parser, bs: seq<Byte>)
    requires Valid(p) && !p.parsingSysex && START_SYSEX !in bs
    ensures AllFit(p, bs) && !Run(p, bs).0.parsingSysex
    decreases |bs|
  {
    if bs != [] {
      assert !Step(p, bs[0]).0.parsingSysex;
      hide Step;
      StaysOutOfSysex(Step(p, bs[0]).0, bs[1..]);
    }
  }

  /** Truncated messages, stray data bytes, unknown commands: the next complete channel message is delivered. */
  lemma Resynchronises(p: Parser, garbage: seq<Byte>, m: seq<Byte>)
    requires Valid(p) && !p.parsingSysex && START_SYSEX !in garbage && IsChannelMessage(m)
    ensures AllFit(p, garbage) && AllFit(p, garbage + m)
    ensures Run(p, garbage + m).1 == Run(p, garbage).1 + [Said(m)] && Idle(Run(p, garbage + m).0)
  {
    StaysOutOfSysex(p, garbage);
    ChannelMessageParsed(Run(p, garbage).0, m);
    RunConcat(p, garbage, m);
  }

  // ---- numbers in seven-bit bytes ----

  lemma SplitJoins(v: int)
    ensures v % 128 + (v / 128 % 128) * 128 == v % 16384
  {
    var a, b := v / 128, v % 128;
    var c, d := a / 128, a % 128;
    assert v == 16384 * c + (128 * d + b);
  }

  /** The upper byte of a digital message is a data byte exactly if bit 14 is clear. */
  lemma UpperByte(v: int)
    ensures v / 128 % 256 < 128 <==> v / 16384 % 2 == 0
    ensures v / 128 % 256 < 128 ==> v / 128 % 256 == v / 128 % 128
  {
    var a := v / 128;
    var c, d := a / 128, a % 128;
    assert v / 16384 == c by {
      assert v == 16384 * c + (128 * d + v % 128);
    }
    var e, f := c / 2, c % 2;
    assert a == 256 * e + (128 * f + d);
  }

  lemma AnalogRoundTrip(p: Parser, pin: Byte, value: int)
    requires Valid(p) && !p.parsingSysex
    ensures AllFit(p, AnalogBytes(pin, value))
    ensures Run(p, AnalogBytes(pin, value)).1 == [Analog(pin % 16, value % 16384)]
    ensures Idle(Run(p, AnalogBytes(pin, value)).0)
  {
    hide Run, AllFit, Step, Idle, AnalogBytes;
    AnalogSaid(pin, value);
    ChannelMessageParsed(p, AnalogBytes(pin, value));
  }

  lemma AnalogSaid(pin: Byte, value: int)
    ensures var m := AnalogBytes(pin, value); IsChannelMessage(m) && Said(m) == Analog(pin % 16, value % 16384)
  {
    ChannelOf(ANALOG_MESSAGE, pin);
    SplitJoins(value);
  }

  /** The channel is in the low four bits of a command. */
  lemma ChannelOf(command: Byte, pin: Byte)
    requires command == ANALOG_MESSAGE || command == DIGITAL_MESSAGE
    ensures var b := command + pin % 16; 128 <= b < 0xF0 && CommandOf(b) == command && b % 16 == pin % 16
  {
  }

  lemma DigitalSaid(port: Byte, data: int)
    requires data / 16384 % 2 == 0
    ensures var m := DigitalBytes(port, data); IsChannelMessage(m) && Said(m) == Digital(port % 16, data % 16384)
  {
    ChannelOf(DIGITAL_MESSAGE, port);
    SplitJoins(data);
    UpperByte(data);
  }

  /** A port is delivered exactly if bit 14 of its value is clear. */
  lemma DigitalRoundTrip(p: Parser, port: Byte, data: int)
    requires Valid(p) && !p.parsingSysex
    ensures AllFit(p, DigitalBytes(port, data))
    ensures Run(p, DigitalBytes(port, data)).1 == [Digital(port % 16, data % 16384)] <==> data / 16384 % 2 == 0
    ensures data / 16384 % 2 == 0 ==> Idle(Run(p, DigitalBytes(port, data)).0)
  {
    hide Run, AllFit, Step, Idle, DigitalBytes;
    if data / 16384 % 2 == 0 {
      DigitalSaid(port, data);
      ChannelMessageParsed(p, DigitalBytes(port, data));
    } else {
      DigitalLost(p, port, data);
      var expected := Digital(port % 16, data % 16384);
      assert expected in [expected];
    }
  }

  lemma DigitalLost(p: Parser, port: Byte, data: int)
    requires Valid(p) && !p.parsingSysex && data / 16384 % 2 != 0
    ensures AllFit(p, DigitalBytes(port, data))
    ensures forall e :: e in Run(p, DigitalBytes(port, data)).1 ==> e == Reset || e == PrintVersion
  {
    hide Run, AllFit, Step, CommandOf;
    var m := DigitalBytes(port, data);
    var command: Byte := DIGITAL_MESSAGE + port % 16;
    ChannelOf(DIGITAL_MESSAGE, port);
    UpperByte(data);
    UpperByteIsCommand(p, command, m[1], m[2]);
    assert m == [command, m[1], m[2]];
  }

  /** Otherwise the upper byte is taken for a command of its own. */
  lemma UpperByteIsCommand(p: Parser, command: Byte, low: Byte, high: Byte)
    requires Valid(p) && !p.parsingSysex && CommandOf(command) == DIGITAL_MESSAGE && command >= 128 && low < 128 <= high
    ensures var m := [command, low, high];
            AllFit(p, m) && forall e :: e in Run(p, m).1 ==> e == Reset || e == PrintVersion
  {
    CommandTaken(p, command);
    var q := Step(p, command).0;
    var q1 := Step(q, low).0;
    assert q1.waitForData == 1 && !q1.parsingSysex && Step(q, low).1 == [];
    assert Step(q1, high) == OnCommand(q1, high);
    OtherEvents(q1, high);
    hide Step, OnCommand;
    var m, m1, m2 := [command, low, high], [low, high], [high];
    assert m == [command] + m1 && m1 == [low] + m2 && m2 == [high] + [];
    RunFirst(p, command, m1);
    RunFirst(q, low, m2);
    RunFirst(q1, high, []);
    RunNothing(Step(q1, high).0);
    assert Run(p, m).1 == [] + ([] + (OnCommand(q1, high).1 + []));
    assert Run(p, m).1 == OnCommand(q1, high).1;
  }

  lemma OtherEvents(p: Parser, b: Byte)
    ensures forall e :: e in OnCommand(p, b).1 ==> e == Reset || e == PrintVersion
  {
  }

  // ---- strings ----

  function Overlaid(stored: seq<Byte>, at: nat, data: seq<Byte>): seq<Byte>
    requires at + |data| <= |stored|
  {
    stored[..at] + data + stored[at + |data|..]
  }

  /** Data bytes inside a sysex message are stored one after the other, as long as there is room. */
  lemma {:induction false} SysexData(p: Parser, data: seq<Byte>)
    requires Valid(p) && p.parsingSysex && END_SYSEX !in data
    ensures AllFit(p, data) <==> p.sysexBytesRead + |data| <= MAX_DATA_BYTES
    ensures AllFit(p, data) ==>
              Run(p, data) == (p.(stored := Overlaid(p.stored, p.sysexBytesRead, data),
                                  sysexBytesRead := p.sysexBytesRead + |data|), [])
    decreases |data|
  {
    if data == [] {
      assert Overlaid(p.stored, p.sysexBytesRead, data) == p.stored;
    } else if Fits(p, data[0]) {
      assert data[0] in data && data == [data[0]] + data[1..];
      var q := Step(p, data[0]).0;
      SysexData(q, data[1..]);
      RunFirst(p, data[0], data[1..]);
      if q.sysexBytesRead + |data| - 1 <= MAX_DATA_BYTES {
        assert Overlaid(q.stored, q.sysexBytesRead, data[1..]) == Overlaid(p.stored, p.sysexBytesRead, data);
      }
    } else {
      assert data[0] in data;
    }
  }

  lemma {:induction false} PackedAt(chars: seq<Byte>)
    ensures |Packed(chars)| == 2 * |chars|
    ensures forall k :: 0 <= k < |chars| ==> Packed(chars)[2 * k] == chars[k] % 128 && Packed(chars)[2 * k + 1] == chars[k] / 128
    ensures forall b :: b in Packed(chars) ==> b < 128
    decreases |chars|
  {
    if chars != [] {
      PackedAt(chars[1..]);
      var rest := Packed(chars[1..]);
      assert Packed(chars) == Two7bitBytes(chars[0]) + rest;
      forall k | 0 <= k < |chars|
        ensures Packed(chars)[2 * k] == chars[k] % 128 && Packed(chars)[2 * k + 1] == chars[k] / 128
      {
        if k > 0 {
          assert chars[1..][k - 1] == chars[k];
          assert Packed(chars)[2 * k] == rest[2 * (k - 1)] && Packed(chars)[2 * k + 1] == rest[2 * (k - 1) + 1];
        }
      }
    }
  }

  lemma ByteJoins(c: Byte)
    ensures Joined(c % 128, c / 128) == c
  {
  }

  /** The parser after all but the last byte of a string message. */
  lemma StringStored(p: Parser, chars: seq<Byte>) returns (q: Parser)
    requires Idle(p) || (Valid(p) && !p.parsingSysex)
    ensures var bs := [START_SYSEX, STRING_DATA] + Packed(chars);
            && (AllFit(p, bs) <==> |chars| <= 31)
            && (AllFit(p, bs) ==> Run(p, bs) == (q, []))
    ensures |chars| <= 31 ==>
              && Valid(q) && q.parsingSysex && q.sysexBytesRead == 2 * |chars| + 1 && q.channel == p.channel
              && q.waitForData == p.waitForData && q.command == p.command
              && q.stored[0] == STRING_DATA
              && forall k :: 0 <= k < |chars| ==> CharAt(q.stored, k) == chars[k]
  {
    var bs := [START_SYSEX, STRING_DATA] + Packed(chars);
    var data := [STRING_DATA] + Packed(chars);
    assert bs == [START_SYSEX] + data;
    PackedAt(chars);
    var p1 := p.(parsingSysex := true, sysexBytesRead := 0);
    assert Step(p, START_SYSEX) == (p1, []);
    RunFirst(p, START_SYSEX, data);
    SysexData(p1, data);
    q := p1;
    if |chars| <= 31 {
      q := p1.(stored := Overlaid(p.stored, 0, data), sysexBytesRead := |data|);
      CharsStored(p.stored, chars);
      assert [] + Run(p1, data).1 == [];
    }
  }

  lemma CharsStored(stored: seq<Byte>, chars: seq<Byte>)
    requires |stored| == MAX_DATA_BYTES && |chars| <= 31
    ensures |Packed(chars)| == 2 * |chars|
    ensures var s := Overlaid(stored, 0, [STRING_DATA] + Packed(chars));
            |s| == MAX_DATA_BYTES && s[0] == STRING_DATA && forall k :: 0 <= k < |chars| ==> CharAt(s, k) == chars[k]
  {
    PackedAt(chars);
    hide Packed, Joined;
    var s := Overlaid(stored, 0, [STRING_DATA] + Packed(chars));
    forall k | 0 <= k < |chars| ensures CharAt(s, k) == chars[k] {
      assert s[2 * k + 1] == Packed(chars)[2 * k] && s[2 * k + 2] == Packed(chars)[2 * k + 1];
      ByteJoins(chars[k]);
    }
  }

  lemma {:induction false} CStringOf(buffer: seq<Byte>, chars: seq<Byte>)
    requires |chars| <= |buffer| && buffer[..|chars|] == chars
    requires (|chars| < |buffer| && buffer[|chars|] == 0) || (chars != [] && chars[|chars| - 1] == 0)
    ensures CString(buffer) == CString(chars)
    decreases |chars|
  {
    if chars != [] && chars[0] != 0 {
      assert buffer[0] == buffer[..|chars|][0];
      assert buffer[1..][..|chars| - 1] == chars[1..];
      CStringOf(buffer[1..], chars[1..]);
    } else if chars != [] {
      assert buffer[0] == buffer[..|chars|][0];
    }
  }

  /** The in-place decoding gives the string back. */
  lemma StringDecoded(q: Parser, chars: seq<Byte>)
    requires Valid(q) && 1 <= |chars| <= 31 && q.sysexBytesRead == 2 * |chars| + 1 && q.stored[0] == STRING_DATA
    requires forall k :: 0 <= k < |chars| ==> CharAt(q.stored, k) == chars[k]
    ensures var r := SysexDone(q.(parsingSysex := false));
            r.1 == [Text(CString(chars))] && r.0 == q.(parsingSysex := false, stored := r.0.stored)
  {
    var n := |chars|;
    assert StringLength(q.sysexBytesRead) == n;
    var decoded := Decoded(q.stored, n);
    assert decoded[..n] == chars;
    assert decoded[n - 1] == chars[n - 1];
    var buffer := Terminated(decoded, n, q.channel);
    assert buffer[..n] == chars;
    CStringOf(buffer, chars);
  }

  /** A string of 1 to 31 characters comes back up to its first null, so whole exactly if it has none; a longer one
      does not fit the buffer. */
  lemma StringRoundTrip(p: Parser, chars: seq<Byte>)
    requires Valid(p) && !p.parsingSysex
    ensures var bs := SysexBytes(STRING_DATA, chars);
            && (AllFit(p, bs) <==> |chars| <= 31)
            && (1 <= |chars| <= 31 ==>
                  && Run(p, bs).1 == [Text(CString(chars))]
                  && Valid(Run(p, bs).0) && !Run(p, bs).0.parsingSysex && Run(p, bs).0.waitForData == p.waitForData)
    ensures CString(chars) == chars <==> 0 !in chars
  {
    hide Step, SysexDone, Packed;
    var bs, body := SysexBytes(STRING_DATA, chars), [START_SYSEX, STRING_DATA] + Packed(chars);
    var q := StringStored(p, chars);
    CStringWhole(chars);
    RunConcat(p, body, [END_SYSEX]);
    if |chars| <= 31 {
      EndOfSysex(q);
      if 1 <= |chars| {
        StringDecoded(q, chars);
      }
    }
  }

  lemma EndOfSysex(q: Parser)
    requires Valid(q) && q.parsingSysex
    ensures AllFit(q, [END_SYSEX]) && Run(q, [END_SYSEX]) == SysexDone(q.(parsingSysex := false))
  {
    hide SysexDone;
    assert [END_SYSEX] == [END_SYSEX] + [];
    RunFirst(q, END_SYSEX, []);
    RunNothing(Step(q, END_SYSEX).0);
    var r := SysexDone(q.(parsingSysex := false));
    assert Step(q, END_SYSEX) == r;
    assert r.1 + [] == r.1 && Run(q, [END_SYSEX]).0 == r.0;
  }

  /** The empty string comes back exactly if the byte in front of the buffer, the channel of the last channel message,
      is not zero: otherwise the terminator is left out and the command byte is taken for text. */
  lemma EmptyStringRoundTrip(p: Parser)
    requires Valid(p) && !p.parsingSysex
    ensures AllFit(p, SysexBytes(STRING_DATA, []))
    ensures Run(p, SysexBytes(STRING_DATA, [])).1 == [Text([])] <==> p.channel != 0
  {
    hide Step;
    var q := StringStored(p, []);
    RunConcat(p, [START_SYSEX, STRING_DATA] + Packed([]), [END_SYSEX]);
    EndOfSysex(q);
    EmptyDecoded(q);
  }

  lemma EmptyDecoded(q: Parser)
    requires Valid(q) && q.sysexBytesRead == 1 && q.stored[0] == STRING_DATA
    ensures SysexDone(q.(parsingSysex := false)).1 == [Text([])] <==> q.channel != 0
  {
    assert Decoded(q.stored, 0) == q.stored;
    var buffer := Terminated(q.stored, 0, q.channel);
    assert CString(buffer) == [] <==> buffer[0] == 0;
  }

  // ---- other sysex messages ----

  /** Up to 63 bytes after the command are passed on as they came, with their number. A message without even a command
      passes 255 as the number, although the buffer has but 63 bytes there, and for the command what it last held. */
  lemma SysexRoundTrip(p: Parser, body: seq<Byte>)
    requires Valid(p) && !p.parsingSysex && 0xF7 !in body && |body| <= 64
    ensures var bs, command := [0xF0] + body + [0xF7], if body == [] then p.stored[0] else body[0];
            && AllFit(p, bs)
            && (command != 0x79 && command != 0x71 ==>
                  var es := Run(p, bs).1;
                  && |es| == 1 && es[0].Sysex? && es[0].command == command && |es[0].argv| == 63
                  && (if body == [] then es[0].argc == 255
                      else es[0].argc as int == |body| - 1 && es[0].argv[..|body| - 1] == body[1..]))
  {
    hide Step, SysexDone;
    var p1 := p.(parsingSysex := true, sysexBytesRead := 0);
    var q := p1.(stored := Overlaid(p.stored, 0, body), sysexBytesRead := |body|);
    SysexStarts(p);
    RunFirst(p, START_SYSEX, body + [END_SYSEX]);
    assert [START_SYSEX] + body + [END_SYSEX] == [START_SYSEX] + (body + [END_SYSEX]);
    SysexData(p1, body);
    RunConcat(p1, body, [END_SYSEX]);
    EndOfSysex(q);
    CommandStored(p.stored, body);
    if q.stored[0] != REPORT_FIRMWARE && q.stored[0] != STRING_DATA {
      SysexPassedOn(q.(parsingSysex := false), body);
    }
    assert [] + ([] + SysexDone(q.(parsingSysex := false)).1) == SysexDone(q.(parsingSysex := false)).1;
  }

  lemma SysexStarts(p: Parser)
    requires Valid(p) && !p.parsingSysex
    ensures Fits(p, START_SYSEX) && Step(p, START_SYSEX) == (p.(parsingSysex := true, sysexBytesRead := 0), [])
  {
  }

  lemma CommandStored(stored: seq<Byte>, body: seq<Byte>)
    requires |body| <= |stored| == MAX_DATA_BYTES
    ensures var s := Overlaid(stored, 0, body);
            |s| == MAX_DATA_BYTES && s[..|body|] == body && s[0] == if body == [] then stored[0] else body[0]
  {
  }

  lemma SysexPassedOn(q: Parser, body: seq<Byte>)
    requires Valid(q) && q.sysexBytesRead == |body| && q.stored[..|body|] == body
    requires q.stored[0] != REPORT_FIRMWARE && q.stored[0] != STRING_DATA
    ensures SysexDone(q).1 == [Sysex(q.stored[0], DataBytes(|body|), q.stored[1..])]
    ensures body == [] ==> DataBytes(|body|) == 255
    ensures body != [] ==> q.stored[0] == body[0] && DataBytes(|body|) == |body| - 1 && q.stored[1..][..|body| - 1] == body[1..]
  {
    if body != [] {
      assert q.stored[..|body|][0] == q.stored[0];
      assert q.stored[1..][..|body| - 1] == q.stored[..|body|][1..];
    }
  }

  // ---- lists of messages ----

  datatype Message = AnalogMessage(pin: Byte, value: int) | DigitalMessage(port: Byte, data: int) | StringMessage(chars: seq<Byte>)

  function Sent(m: Message): seq<Byte> {
    match m
    case AnalogMessage(pin, value) => AnalogBytes(pin, value)
    case DigitalMessage(port, data) => DigitalBytes(port, data)
    case StringMessage(chars) => StringBytes(chars)
  }

  function Received(m: Message): Event {
    match m
    case AnalogMessage(pin, value) => Analog(pin % 16, value % 16384)
    case DigitalMessage(port, data) => Digital(port % 16, data % 16384)
    case StringMessage(chars) => Text(chars)
  }

  predicate Sendable(m: Message) {
    match m
    case AnalogMessage(_, _) => true
    case DigitalMessage(_, data) => data / 16384 % 2 == 0
    case StringMessage(chars) => 1 <= |chars| <= 31 && 0 !in chars
  }

  function AllSent(ms: seq<Message>): seq<Byte>
    decreases |ms|
  {
    if ms == [] then [] else Sent(ms[0]) + AllSent(ms[1..])
  }

  function AllReceived(ms: seq<Message>): seq<Event>
    decreases |ms|
  {
    if ms == [] then [] else [Received(ms[0])] + AllReceived(ms[1..])
  }

  /** Whatever is sent to an idle parser is called back, in order, and leaves it idle. */
  lemma {:induction false} MessagesRoundTrip(p: Parser, ms: seq<Message>)
    requires Idle(p) && forall m :: m in ms ==> Sendable(m)
    ensures AllFit(p, AllSent(ms)) && Run(p, AllSent(ms)).1 == AllReceived(ms) && Idle(Run(p, AllSent(ms)).0)
    decreases |ms|
  {
    if ms == [] {
      RunNothing(p);
    } else {
      hide Run, AllFit, Sent, Received;
      MessageRoundTrip(p, ms[0]);
      RunConcat(p, Sent(ms[0]), AllSent(ms[1..]));
      MessagesRoundTrip(Run(p, Sent(ms[0])).0, ms[1..]);
    }
  }

  lemma MessageRoundTrip(p: Parser, m: Message)
    requires Idle(p) && Sendable(m)
    ensures AllFit(p, Sent(m)) && Run(p, Sent(m)).1 == [Received(m)] && Idle(Run(p, Sent(m)).0)
  {
    hide Run, AllFit, AnalogBytes, DigitalBytes, SysexBytes, StringBytes;
    match m
    case AnalogMessage(pin, value) => AnalogRoundTrip(p, pin, value);
    case DigitalMessage(port, data) => DigitalRoundTrip(p, port, data);
    case StringMessage(chars) =>
      WholeString(chars);
      StringRoundTrip(p, chars);
  }

  /** A printer and a parser, connected. */
  method Transfer(sender: FirmataClass, receiver: FirmataClass, ms: seq<Message>)
    requires sender != receiver && sender.stream == [] && Idle(receiver.State())
    requires forall m :: m in ms ==> Sendable(m)
    modifies sender`stream, receiver`waitForData, receiver`executeMultiByteCommand, receiver`multiByteChannel,
             receiver`parsingSysex, receiver`sysexBytesRead, receiver`events, receiver.storedInputData
    ensures receiver.events == old(receiver.events) + AllReceived(ms) && Idle(receiver.State())
  {
    hide AllSent, AllReceived, Run, AllFit, Sendable;
    Print(sender, ms);
    assert sender.stream == AllSent(ms);
    MessagesRoundTrip(receiver.State(), ms);
    ParseAll(receiver, sender.stream);
  }

  method Print(sender: FirmataClass, ms: seq<Message>)
    modifies sender`stream
    ensures sender.stream == old(sender.stream) + AllSent(ms)
  {
    hide AnalogBytes, DigitalBytes, StringBytes, AllSent;
    AllSentSnoc();
    for i := 0 to |ms|
      invariant sender.stream == old(sender.stream) + AllSent(ms[..i])
    {
      assert ms[..i + 1] == ms[..i] + [ms[i]];
      SentSnoc(ms[..i], ms[i]);
      match ms[i]
      case AnalogMessage(pin, value) => sender.SendAnalog(pin, value);
      case DigitalMessage(port, data) => sender.SendDigitalPort(port, data);
      case StringMessage(chars) => sender.SendString(chars);
    }
    assert ms[..|ms|] == ms;
  }

  lemma AllSentSnoc()
    ensures AllSent([]) == []
  {
  }

  lemma {:induction false} SentSnoc(ms: seq<Message>, m: Message)
    ensures AllSent(ms + [m]) == AllSent(ms) + Sent(m)
    decreases |ms|
  {
    hide Sent;
    if ms == [] {
      assert ([] + [m])[1..] == [];
    } else {
      assert (ms + [m])[1..] == ms[1..] + [m];
      SentSnoc(ms[1..], m);
    }
  }

  method ParseAll(receiver: FirmataClass, bs: seq<Byte>)
    requires Valid(receiver.State()) && AllFit(receiver.State(), bs)
    modifies receiver`waitForData, receiver`executeMultiByteCommand, receiver`multiByteChannel,
             receiver`parsingSysex, receiver`sysexBytesRead, receiver`events, receiver.storedInputData
    ensures receiver.State() == Run(old(receiver.State()), bs).0
    ensures receiver.events == old(receiver.events) + Run(old(receiver.State()), bs).1
  {
    hide Step, Valid;
    ghost var start := receiver.State();
    ghost var events := receiver.events;
    RunNothing(start);
    for i := 0 to |bs|
      invariant Valid(receiver.State()) && AllFit(start, bs[..i]) && AllFit(receiver.State(), bs[i..])
      invariant receiver.State() == Run(start, bs[..i]).0 && receiver.events == events + Run(start, bs[..i]).1
    {
      assert bs[i..][0] == bs[i] && bs[i..][1..] == bs[i + 1..] && bs[..i + 1] == bs[..i] + [bs[i]];
      OneMore(start, bs[..i], bs[i]);
      receiver.Parse(bs[i]);
    }
    assert bs[..|bs|] == bs;
  }

  lemma OneMore(p: Parser, bs: seq<Byte>, b: Byte)
    requires Valid(p) && AllFit(p, bs) && Fits(Run(p, bs).0, b)
    ensures AllFit(p, bs + [b])
    ensures Run(p, bs + [b]).0 == Step(Run(p, bs).0, b).0
    ensures Run(p, bs + [b]).1 == Run(p, bs).1 + Step(Run(p, bs).0, b).1
  {
    hide Step;
    var q := Run(p, bs).0;
    assert [b] == [b] + [];
    RunFirst(q, b, []);
    RunNothing(Step(q, b).0);
    RunConcat(p, bs, [b]);
  }
}
