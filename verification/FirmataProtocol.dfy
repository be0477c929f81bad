/** The Firmata protocol byte by byte: what each message is on the wire, and what it makes the parser do. */
module FirmataProtocol {
  import opened Arithmetic
  import opened Firmata
  import opened FirmataLink

  // ---- what the parser makes of each byte outside a sysex message ----

  /** Every byte that does not continue a message. Below 0xF0 the low four bits are taken for a channel, whatever the
      rest says. */
  lemma CommandByte(p: Parser, b: Byte)
    requires Valid(p) && !p.parsingSysex && (b >= 128 || p.waitForData == 0)
    ensures Fits(p, b)
    ensures var (q, es) := Step(p, b);
            var p' := if b < 0xF0 then p.(channel := b % 16) else p;
            if 0x90 <= b < 0xA0 then q == p'.(waitForData := 2, command := 0x90) && es == []
            else if 0xC0 <= b < 0xD0 then q == p'.(waitForData := 1, command := 0xC0) && es == []
            else if 0xD0 <= b < 0xE0 then q == p'.(waitForData := 1, command := 0xD0) && es == []
            else if 0xE0 <= b < 0xF0 then q == p'.(waitForData := 2, command := 0xE0) && es == []
            else if b == 0xF0 then q == p.(parsingSysex := true, sysexBytesRead := 0) && es == []
            else if b == 0xF4 || b == 0xF5 then q == p.(waitForData := 2, command := b) && es == []
            else if b == 0xF9 then q == p && es == [PrintVersion]
            else if b == 0xFF then q == Parser(0, 0, 0, seq(64, _ => 0), false, 0) && es == [Reset]
            else q == p' && es == []
  {
    hide Fresh;
    UpperHalf(b);
    FreshIs();
  }

  /** A byte that continues a message: data of a sysex message, stored from the front, or of a channel message, of which
      the last byte comes to lie in front and ends it. */
  lemma DataByte(p: Parser, b: Byte)
    requires Valid(p)
    ensures p.parsingSysex && b != 0xF7 && p.sysexBytesRead < 64 ==>
              && Fits(p, b)
              && Step(p, b) == (p.(stored := p.stored[p.sysexBytesRead := b], sysexBytesRead := p.sysexBytesRead + 1), [])
    ensures !p.parsingSysex && p.waitForData == 2 && b < 128 ==>
              Fits(p, b) && Step(p, b) == (p.(stored := p.stored[1 := b], waitForData := 1), [])
    ensures !p.parsingSysex && p.waitForData == 1 && b < 128 ==>
              Fits(p, b) && Step(p, b).0 == p.(stored := p.stored[0 := b], waitForData := 0, command := 0)
  {
    hide Execute;
  }

  lemma UpperHalf(b: Byte)
    ensures 0x90 <= b < 0xA0 <==> b - b % 16 == 0x90
    ensures 0xC0 <= b < 0xD0 <==> b - b % 16 == 0xC0
    ensures 0xD0 <= b < 0xE0 <==> b - b % 16 == 0xD0
    ensures 0xE0 <= b < 0xF0 <==> b - b % 16 == 0xE0
  {
  }

  lemma FreshIs()
    ensures Fresh() == Parser(0, 0, 0, seq(64, _ => 0), false, 0)
  {
    assert seq(MAX_DATA_BYTES, _ => 0) == seq(64, _ => 0);
  }

  // ---- whole messages ----

  /** Whatever was pending: two data bytes, the lower seven bits first, or two separate ones, or one. */
  lemma ChannelMessages(p: Parser, channel: Byte, a: Byte, b: Byte)
    requires Valid(p) && !p.parsingSysex && channel < 16 && a < 128 && b < 128
    ensures Delivers(p, [0x90 + channel, a, b], Digital(channel, a as int + 128 * b as int))
    ensures Delivers(p, [0xE0 + channel, a, b], Analog(channel, a as int + 128 * b as int))
    ensures Delivers(p, [0xF4, a, b], PinMode(a, b))
    ensures Delivers(p, [0xF5, a, b], PinValue(a, b))
    ensures Delivers(p, [0xC0 + channel, a], ReportAnalog(channel, a))
    ensures Delivers(p, [0xD0 + channel, a], ReportDigital(channel, a))
  {
    SaidTwo(0x90, channel, a, b);
    SaidTwo(0xE0, channel, a, b);
    SaidPin(a, b);
    SaidOne(channel, a);
    hide IsChannelMessage, Said, Run, AllFit, Idle, Valid;
    ChannelMessageParsed(p, [0x90 + channel, a, b]);
    ChannelMessageParsed(p, [0xE0 + channel, a, b]);
    ChannelMessageParsed(p, [0xF4, a, b]);
    ChannelMessageParsed(p, [0xF5, a, b]);
    ChannelMessageParsed(p, [0xC0 + channel, a]);
    ChannelMessageParsed(p, [0xD0 + channel, a]);
  }

  /** The bytes are parsed, make exactly one call, and leave the parser idle. */
  predicate Delivers(p: Parser, bs: seq<Byte>, e: Event)
    requires Valid(p)
  {
    AllFit(p, bs) && Run(p, bs).1 == [e] && Idle(Run(p, bs).0)
  }

  lemma SaidTwo(command: Byte, channel: Byte, a: Byte, b: Byte)
    requires (command == 0x90 || command == 0xE0) && channel < 16 && a < 128 && b < 128
    ensures var m := [command + channel, a, b];
            IsChannelMessage(m) && Said(m) == if command == 0x90 then Digital(channel, a as int + 128 * b as int)
                                              else Analog(channel, a as int + 128 * b as int)
  {
    UpperHalf(command + channel);
    assert (command + channel) % 16 == channel;
  }

  lemma SaidPin(a: Byte, b: Byte)
    requires a < 128 && b < 128
    ensures var m := [0xF4, a, b]; IsChannelMessage(m) && Said(m) == PinMode(a, b)
    ensures var m := [0xF5, a, b]; IsChannelMessage(m) && Said(m) == PinValue(a, b)
  {
  }

  lemma SaidOne(channel: Byte, a: Byte)
    requires channel < 16 && a < 128
    ensures var m := [0xC0 + channel, a]; IsChannelMessage(m) && Said(m) == ReportAnalog(channel, a)
    ensures var m := [0xD0 + channel, a]; IsChannelMessage(m) && Said(m) == ReportDigital(channel, a)
  {
    UpperHalf(0xC0 + channel);
    UpperHalf(0xD0 + channel);
    assert (0xC0 + channel) % 16 == channel && (0xD0 + channel) % 16 == channel;
  }

  /** The version query changes nothing, a system reset clears everything, and the firmware query is a sysex message. */
  lemma Queries(p: Parser)
    requires Valid(p) && !p.parsingSysex
    ensures AllFit(p, [0xF9]) && Run(p, [0xF9]) == (p, [PrintVersion])
    ensures AllFit(p, [0xFF]) && Run(p, [0xFF]) == (Parser(0, 0, 0, seq(64, _ => 0), false, 0), [Reset])
    ensures AllFit(p, [0xF0, 0x79, 0xF7]) && Run(p, [0xF0, 0x79, 0xF7]).1 == [PrintFirmware]
    ensures Run(p, [0xF0, 0x79, 0xF7]).0 == p.(stored := p.stored[0 := 0x79], sysexBytesRead := 1)
  {
    OneByteRun(p, 0xF9);
    OneByteRun(p, 0xFF);
    FirmwareQuery(p);
  }

  lemma OneByteRun(p: Parser, b: Byte)
    requires Valid(p) && !p.parsingSysex && (b == 0xF9 || b == 0xFF)
    ensures AllFit(p, [b]) && Run(p, [b]) == Step(p, b)
  {
    CommandByte(p, b);
    hide Step;
    assert [b] == [b] + [];
    RunFirst(p, b, []);
    RunNothing(Step(p, b).0);
    assert Step(p, b).1 + [] == Step(p, b).1;
  }

  lemma FirmwareQuery(p: Parser)
    requires Valid(p) && !p.parsingSysex
    ensures AllFit(p, [0xF0, 0x79, 0xF7]) && Run(p, [0xF0, 0x79, 0xF7]).1 == [PrintFirmware]
    ensures Run(p, [0xF0, 0x79, 0xF7]).0 == p.(stored := p.stored[0 := 0x79], sysexBytesRead := 1)
  {
    var p1 := p.(parsingSysex := true, sysexBytesRead := 0);
    var p2 := p1.(stored := p.stored[0 := 0x79], sysexBytesRead := 1);
    CommandByte(p, 0xF0);
    assert Step(p1, 0x79) == (p2, []);
    FirmwareDone(p2);
    hide Step;
    EndOfSysex(p2);
    assert [0xF0, 0x79, 0xF7] == [0xF0] + ([0x79] + [END_SYSEX]);
    RunFirst(p, 0xF0, [0x79] + [END_SYSEX]);
    RunFirst(p1, 0x79, [END_SYSEX]);
    assert [] + ([] + [PrintFirmware]) == [PrintFirmware];
  }

  lemma FirmwareDone(p: Parser)
    requires Valid(p) && p.stored[0] == 0x79
    ensures SysexDone(p.(parsingSysex := false)) == (p.(parsingSysex := false), [PrintFirmware])
    ensures END_SYSEX == 0xF7
  {
  }

  /** Every byte of `bytes` as its low seven bits and the one above them. */
  lemma PackedIs(bytes: seq<Byte>)
    ensures Packed(bytes) ==
            seq(2 * |bytes|, i requires 0 <= i < 2 * |bytes| => if i % 2 == 0 then bytes[i / 2] % 128 else bytes[i / 2] / 128)
  {
    PackedAt(bytes);
    hide Packed;
    var n := 2 * |bytes|;
    var packed := seq(n, i requires 0 <= i < n => if i % 2 == 0 then bytes[i / 2] % 128 else bytes[i / 2] / 128);
    forall i | 0 <= i < 2 * |bytes| ensures Packed(bytes)[i] == packed[i] {
      HalfOf(i);
      var k := i / 2;
      assert Packed(bytes)[2 * k] == bytes[k] % 128 && Packed(bytes)[2 * k + 1] == bytes[k] / 128;
    }
  }

  lemma HalfOf(i: nat)
    ensures i == 2 * (i / 2) + i % 2 && (i % 2 == 0 || i % 2 == 1)
  {
  }

  /** A string of 1 to 31 characters on the wire, and the call that it makes. */
  lemma StringMessages(p: Parser, chars: seq<Byte>)
    requires Valid(p) && !p.parsingSysex && 1 <= |chars| <= 31 && 0 !in chars
    ensures var n := 2 * |chars|;
            var packed := seq(n, i requires 0 <= i < n => if i % 2 == 0 then chars[i / 2] % 128 else chars[i / 2] / 128);
            var bs := [0xF0, 0x71] + packed + [0xF7];
            AllFit(p, bs) && Run(p, bs).1 == [Text(chars)]
  {
    PackedIs(chars);
    assert [START_SYSEX, STRING_DATA] == [0xF0, 0x71] && [END_SYSEX] == [0xF7];
    hide Run, AllFit, Packed;
    StringRoundTrip(p, chars);
  }

  /** What is sent of a longer string: its length is passed on in a byte. */
  lemma StringOnWire(chars: seq<Byte>)
    requires 0 !in chars
    ensures var n := 2 * (|chars| % 256);
            StringBytes(chars) ==
            [0xF0, 0x71] + seq(n, i requires 0 <= i < n => if i % 2 == 0 then chars[i / 2] % 128 else chars[i / 2] / 128) + [0xF7]
  {
    CStringWhole(chars);
    var n := |chars| % 256;
    PackedIs(chars[..n]);
    hide Packed, CString;
    var wire := seq(2 * n, i requires 0 <= i < 2 * n => if i % 2 == 0 then chars[i / 2] % 128 else chars[i / 2] / 128);
    assert Packed(chars[..n]) == wire;
    assert [START_SYSEX, STRING_DATA] == [0xF0, 0x71] && [END_SYSEX] == [0xF7];
  }
}
