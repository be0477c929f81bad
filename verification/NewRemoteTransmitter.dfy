/** The 433 MHz transmitter: it prints telegrams as levels and delays on one pin. */
module NewRemoteTransmitter {
  import opened Arithmetic

  /** A level held on the pin for `us` microseconds. */
  datatype Pulse = Pulse(high: bool, us: nat)

  function High(us: nat): Pulse { Pulse(true, us) }
  function Low(us: nat): Pulse { Pulse(false, us) }

  function BitPulses(t: nat, one: bool): seq<Pulse> {
    if one then [High(t), Low(5 * t % WORD16), High(t), Low(t)]
    else [High(t), Low(t), High(t), Low(5 * t % WORD16)]
  }

  /** The low `n` bits of `v`, most significant first. */
  function WordPulses(t: nat, n: nat, v: nat): seq<Pulse> {
    if n == 0 then [] else WordPulses(t, n - 1, v / 2) + BitPulses(t, v % 2 == 1)
  }

  function StartPulses(t: nat): seq<Pulse> {
    [High(t), Low((10 * t % WORD16 + t / 2) % WORD16)]
  }

  function StopPulses(t: nat): seq<Pulse> {
    [High(t), Low(40 * t % WORD16)]
  }

  function TelegramPulses(t: nat, address: nat, group: bool, on: bool, unit: nat): seq<Pulse> {
    StartPulses(t) + WordPulses(t, 26, address) + BitPulses(t, group) + BitPulses(t, on) + WordPulses(t, 4, unit) + StopPulses(t)
  }

  /** The symbol between a 0 and a 1. */
  function DimSymbolPulses(t: nat): seq<Pulse> {
    [High(t), Low(t), High(t), Low(t)]
  }

  function DimPulses(t: nat, address: nat, unit: nat, dimLevel: nat): seq<Pulse> {
    StartPulses(t) + WordPulses(t, 26, address) + BitPulses(t, false) + DimSymbolPulses(t) + WordPulses(t, 4, unit)
    + WordPulses(t, 4, dimLevel) + StopPulses(t)
  }

  /** What one telegram is to say. */
  datatype Message = Switch(group: bool, on: bool, unit: nat) | DimTo(unit: nat, dimLevel: nat)

  function MessagePulses(t: nat, address: nat, msg: Message): seq<Pulse> {
    match msg
    case Switch(group, on, unit) => TelegramPulses(t, address, group, on, unit)
    case DimTo(unit, dimLevel) => DimPulses(t, address, unit, dimLevel)
  }

  function Repeat(ps: seq<Pulse>, n: nat): seq<Pulse> {
    if n == 0 then [] else ps + Repeat(ps, n - 1)
  }

  /** How often a telegram goes out: the loop counter is a signed byte, so a mask of 255 is -1. */
  function TelegramCount(repeatMask: nat): nat {
    if repeatMask < 128 then repeatMask + 1 else 0
  }

  /** 2^repeats telegrams go out when `repeats` is at most 7, and none at all from 8 on. */
  lemma {:induction false} CountIsPowerOfTwo(repeats: nat)
    ensures repeats <= 7 ==> TelegramCount((Pow2(repeats) - 1) % 256) == Pow2(repeats)
    ensures repeats >= 8 ==> TelegramCount((Pow2(repeats) - 1) % 256) == 0
  {
    if repeats >= 8 {
      MultipleOf256(repeats);
    } else {
      Pow2Monotone(repeats, 7);
      Pow2Monotone(0, repeats);
      assert Pow2(4) == 16 && Pow2(7) == 128;
    }
  }

  lemma MultipleOf256(n: nat)
    requires n >= 8
    ensures Pow2(n) > 0 && (Pow2(n) - 1) % 256 == 255
  {
    Pow2Powers();
    hide Pow2;
    Pow2Add(8, n - 8);
    Pow2Positive(n - 8);
    var k := Pow2(n - 8);
    assert Pow2(n) - 1 == (k - 1) * 256 + 255;
    QuotientIs(Pow2(n) - 1, 256, k - 1, 255);
  }

  /** `v >> n`. */
  function Shifted(v: nat, n: int): nat
    decreases if n < 0 then 0 else n
  {
    if n <= 0 then v else Shifted(v, n - 1) / 2
  }

  class NewRemoteTransmitter {
    const address: nat
    const periodusec: nat
    const repeatMask: Byte         // 2^repeats - 1
    var line: seq<Pulse>           // everything sent so far

    constructor (address: nat, periodusec: nat, repeats: nat)
      requires address < WORD32 && periodusec < WORD16
      ensures this.address == address && this.periodusec == periodusec
      ensures repeatMask == (Pow2(repeats) - 1) % 256 && line == []
    {
      this.address := address;
      this.periodusec := periodusec;
      repeatMask := (Pow2(repeats) - 1) % 256;
      line := [];
    }

    method Hold(high: bool, us: nat)
      modifies this
      ensures line == old(line) + [Pulse(high, us)]
    {
      line := line + [Pulse(high, us)];
    }

    method SendStartPulse()
      modifies this
      ensures line == old(line) + StartPulses(periodusec)
    {
      Hold(true, periodusec);
      Hold(false, (periodusec * 10 % WORD16 + periodusec / 2) % WORD16);
    }

    method SendStopPulse()
      modifies this
      ensures line == old(line) + StopPulses(periodusec)
    {
      Hold(true, periodusec);
      Hold(false, periodusec * 40 % WORD16);
    }

    method SendBit(isBitOne: bool)
      modifies this
      ensures line == old(line) + BitPulses(periodusec, isBitOne)
    {
      if isBitOne {
        Hold(true, periodusec);
        Hold(false, periodusec * 5 % WORD16);
        Hold(true, periodusec);
        Hold(false, periodusec);
      } else {
        Hold(true, periodusec);
        Hold(false, periodusec);
        Hold(true, periodusec);
        Hold(false, periodusec * 5 % WORD16);
      }
    }

    method SendAddress()
      modifies this
      ensures line == old(line) + WordPulses(periodusec, 26, address)
    {
      SendWord(26, address);
    }

    method SendUnitNumber(unit: nat)
      modifies this
      ensures line == old(line) + WordPulses(periodusec, 4, unit)
    {
      SendWord(4, unit);
    }

    /** The low `n` bits of `v`, from bit n - 1 down to bit 0. */
    method SendWord(n: nat, v: nat)
      modifies this
      ensures line == old(line) + WordPulses(periodusec, n, v)
    {
      var i: int := n;
      while i > 0
        invariant 0 <= i <= n
        invariant line == old(line) + WordPulses(periodusec, n - i, Shifted(v, i))
      {
        i := i - 1;
        SendBit(Shifted(v, i) % 2 == 1);
        assert Shifted(v, i + 1) == Shifted(v, i) / 2;
      }
    }

    method SendTelegram(group: bool, switchOn: bool, unit: nat)
      modifies this
      ensures line == old(line) + TelegramPulses(periodusec, address, group, switchOn, unit)
    {
      hide StartPulses, WordPulses, BitPulses, StopPulses;
      ghost var sent := StartPulses(periodusec);
      SendStartPulse();
      SendAddress();
      sent := sent + WordPulses(periodusec, 26, address);
      assert line == old(line) + sent;
      SendBit(group);
      sent := sent + BitPulses(periodusec, group);
      assert line == old(line) + sent;
      SendBit(switchOn);
      sent := sent + BitPulses(periodusec, switchOn);
      assert line == old(line) + sent;
      SendUnitNumber(unit);
      sent := sent + WordPulses(periodusec, 4, unit);
      assert line == old(line) + sent;
      SendStopPulse();
    }

    method SendDimSymbol()
      modifies this
      ensures line == old(line) + DimSymbolPulses(periodusec)
    {
      Hold(true, periodusec);
      Hold(false, periodusec);
      Hold(true, periodusec);
      Hold(false, periodusec);
    }

    method SendDimTelegram(unit: nat, dimLevel: nat)
      modifies this
      ensures line == old(line) + DimPulses(periodusec, address, unit, dimLevel)
    {
      hide StartPulses, WordPulses, BitPulses, StopPulses, DimSymbolPulses;
      ghost var sent := StartPulses(periodusec);
      SendStartPulse();
      SendAddress();
      sent := sent + WordPulses(periodusec, 26, address);
      assert line == old(line) + sent;
      SendBit(false);
      sent := sent + BitPulses(periodusec, false);
      assert line == old(line) + sent;
      SendDimSymbol();
      sent := sent + DimSymbolPulses(periodusec);
      assert line == old(line) + sent;
      SendUnitNumber(unit);
      sent := sent + WordPulses(periodusec, 4, unit);
      assert line == old(line) + sent;
      SendWord(4, dimLevel);
      sent := sent + WordPulses(periodusec, 4, dimLevel);
      assert line == old(line) + sent;
      SendStopPulse();
    }

    method SendGroup(switchOn: bool)
      modifies this
      ensures line == old(line) + Repeat(TelegramPulses(periodusec, address, true, switchOn, 0), TelegramCount(repeatMask))
    {
      SendRepeatedly(Switch(true, switchOn, 0));
    }

    method SendUnit(unit: nat, switchOn: bool)
      modifies this
      ensures line == old(line) + Repeat(TelegramPulses(periodusec, address, false, switchOn, unit), TelegramCount(repeatMask))
    {
      SendRepeatedly(Switch(false, switchOn, unit));
    }

    method SendDim(unit: nat, dimLevel: nat)
      modifies this
      ensures line == old(line) + Repeat(DimPulses(periodusec, address, unit, dimLevel), TelegramCount(repeatMask))
    {
      SendRepeatedly(DimTo(unit, dimLevel));
    }

    /** The loop that all three of them have. */
    method SendRepeatedly(msg: Message)
      modifies this
      ensures line == old(line) + Repeat(MessagePulses(periodusec, address, msg), TelegramCount(repeatMask))
    {
      hide TelegramPulses, DimPulses, Repeat;
      ghost var telegram := MessagePulses(periodusec, address, msg);
      RepeatNone(telegram);
      var i: int := if repeatMask < 128 then repeatMask else repeatMask - 256;   // a signed byte
      ghost var sent := 0;
      while i >= 0
        invariant -256 <= i < 128
        invariant sent + (if i < 0 then 0 else i + 1) == TelegramCount(repeatMask)
        invariant line == old(line) + Repeat(telegram, sent)
      {
        match msg {
          case Switch(group, on, unit) => SendTelegram(group, on, unit);
          case DimTo(unit, dimLevel) => SendDimTelegram(unit, dimLevel);
        }
        RepeatSnoc(telegram, sent);
        assert line == old(line) + (Repeat(telegram, sent) + telegram);
        i, sent := i - 1, sent + 1;
      }
    }
  }

  lemma RepeatNone(ps: seq<Pulse>)
    ensures Repeat(ps, 0) == []
  {
  }

  lemma {:induction false} RepeatSnoc(ps: seq<Pulse>, n: nat)
    ensures Repeat(ps, n + 1) == Repeat(ps, n) + ps
  {
    if n == 0 {
      assert Repeat(ps, 1) == ps + [];
    } else {
      RepeatSnoc(ps, n - 1);
      assert ps + (Repeat(ps, n - 1) + ps) == (ps + Repeat(ps, n - 1)) + ps;
    }
  }
}
