/** The decoders of IRremote2, over a recording of tick counts. */
module IrDecoders {
  import opened Arithmetic
  import opened Options
  import opened IrSampler

  datatype Kind = NEC | SONY | RC5 | RC6 | PANASONIC | JVC | SANYO | MITSUBISHI | SAMSUNG | LG

  datatype Results = Results(kind: Kind, bits: nat, value: nat, panasonicAddress: nat)

  const REPEAT := 0xffff_ffff

  const MARK_EXCESS := 100

  const RC5_T1 := 889
  const RC6_T1 := 444

  /** 75 percent of `us`, in ticks of 50 microseconds. */
  function TicksLow(us: nat): nat {
    us * 3 / 200
  }

  /** 125 percent of `us`, in ticks, and one more. */
  function TicksHigh(us: nat): nat {
    us / 40 + 1
  }

  predicate Match(measured: nat, desired: nat) {
    TicksLow(desired) <= measured <= TicksHigh(desired)
  }

  predicate MatchMark(ticks: nat, us: nat) {
    Match(ticks, us + MARK_EXCESS)
  }

  predicate MatchSpace(ticks: nat, us: nat)
    requires us >= MARK_EXCESS
  {
    Match(ticks, us - MARK_EXCESS)
  }

  // ---- pulse distance: the space after each mark tells the bit ----

  /** The widths of a pulse-distance protocol, in microseconds. */
  datatype Timing = Timing(hdrMark: nat, hdrSpace: nat, bitMark: nat, oneSpace: nat, zeroSpace: nat)

  predicate Proper(t: Timing) {
    t.hdrSpace >= MARK_EXCESS && t.oneSpace >= MARK_EXCESS && t.zeroSpace >= MARK_EXCESS
  }

  const NecTiming := Timing(9000, 4500, 560, 1600, 560)
  const JvcTiming := Timing(8000, 4000, 600, 1600, 550)
  const LgTiming := Timing(8000, 4000, 600, 1600, 550)
  const SamsungTiming := Timing(5000, 5000, 560, 1600, 560)
  const PanasonicTiming := Timing(3502, 1750, 502, 1244, 400)

  /** `n` bits read from entry `offset` on, shifted into `data`. */
  function DistanceBits(buf: seq<nat>, offset: nat, n: nat, t: Timing, data: nat, modulus: nat): Option<nat>
    requires Proper(t) && modulus > 0 && offset + 2 * n <= |buf|
    decreases n
  {
    if n == 0 then Some(data)
    else if !MatchMark(buf[offset], t.bitMark) then None
    else if MatchSpace(buf[offset + 1], t.oneSpace) then DistanceBits(buf, offset + 2, n - 1, t, (data * 2 + 1) % modulus, modulus)
    else if MatchSpace(buf[offset + 1], t.zeroSpace) then DistanceBits(buf, offset + 2, n - 1, t, data * 2 % modulus, modulus)
    else None
  }

  method ReadDistanceBits(buf: array<nat>, start: nat, n: nat, t: Timing, modulus: nat) returns (r: Option<nat>)
    requires Proper(t) && modulus > 0 && start + 2 * n <= buf.Length
    ensures r == DistanceBits(buf[..], start, n, t, 0, modulus)
  {
    var data: nat, offset: nat := 0, start;
    for i := 0 to n
      invariant offset == start + 2 * i
      invariant DistanceBits(buf[..], start, n, t, 0, modulus) == DistanceBits(buf[..], offset, n - i, t, data, modulus)
    {
      if !MatchMark(buf[offset], t.bitMark) {
        return None;
      }
      offset := offset + 1;
      if MatchSpace(buf[offset], t.oneSpace) {
        data := (data * 2 + 1) % modulus;
      } else if MatchSpace(buf[offset], t.zeroSpace) {
        data := data * 2 % modulus;
      } else {
        return None;
      }
      offset := offset + 1;
    }
    r := Some(data);
  }

  /** A header, then `n` bits. */
  function HeaderAndBits(buf: seq<nat>, n: nat, t: Timing, kind: Kind): Option<Results>
    requires Proper(t) && 3 + 2 * n <= |buf|
  {
    if !MatchMark(buf[1], t.hdrMark) || !MatchSpace(buf[2], t.hdrSpace) then None
    else match DistanceBits(buf, 3, n, t, 0, WORD32)
         case Some(data) => Some(Results(kind, n, data, 0))
         case None => None
  }

  /** The repeat code of NEC and Samsung: a header mark, a short space and a bit mark. */
  predicate IsRepeat(buf: seq<nat>, rawlen: nat, t: Timing)
    requires |buf| == RAWBUF
  {
    rawlen == 4 && MatchSpace(buf[2], 2250) && MatchMark(buf[3], t.bitMark)
  }

  function NecResult(buf: seq<nat>, rawlen: nat): Option<Results>
    requires |buf| == RAWBUF
  {
    if MatchMark(buf[1], NecTiming.hdrMark) && IsRepeat(buf, rawlen, NecTiming) then Some(Results(NEC, 0, REPEAT, 0))
    else if rawlen < 2 * 32 + 4 then None
    else HeaderAndBits(buf, 32, NecTiming, NEC)
  }

  method DecodeNEC(buf: array<nat>, rawlen: nat) returns (r: Option<Results>)
    requires buf.Length == RAWBUF
    ensures r == NecResult(buf[..], rawlen)
  {
    if !MatchMark(buf[1], NecTiming.hdrMark) {
      return None;
    }
    if rawlen == 4 && MatchSpace(buf[2], 2250) && MatchMark(buf[3], NecTiming.bitMark) {
      return Some(Results(NEC, 0, REPEAT, 0));
    }
    if rawlen < 2 * 32 + 4 {
      return None;
    }
    if !MatchSpace(buf[2], NecTiming.hdrSpace) {
      return None;
    }
    var data := ReadDistanceBits(buf, 3, 32, NecTiming, WORD32);
    r := if data.Some? then Some(Results(NEC, 32, data.value, 0)) else None;
  }

  function SamsungResult(buf: seq<nat>, rawlen: nat): Option<Results>
    requires |buf| == RAWBUF
  {
    if MatchMark(buf[1], SamsungTiming.hdrMark) && IsRepeat(buf, rawlen, SamsungTiming) then Some(Results(SAMSUNG, 0, REPEAT, 0))
    else if rawlen < 2 * 32 + 4 then None
    else HeaderAndBits(buf, 32, SamsungTiming, SAMSUNG)
  }

  method DecodeSAMSUNG(buf: array<nat>, rawlen: nat) returns (r: Option<Results>)
    requires buf.Length == RAWBUF
    ensures r == SamsungResult(buf[..], rawlen)
  {
    if !MatchMark(buf[1], SamsungTiming.hdrMark) {
      return None;
    }
    if rawlen == 4 && MatchSpace(buf[2], 2250) && MatchMark(buf[3], SamsungTiming.bitMark) {
      return Some(Results(SAMSUNG, 0, REPEAT, 0));
    }
    if rawlen < 2 * 32 + 4 {
      return None;
    }
    if !MatchSpace(buf[2], SamsungTiming.hdrSpace) {
      return None;
    }
    var data := ReadDistanceBits(buf, 3, 32, SamsungTiming, WORD32);
    r := if data.Some? then Some(Results(SAMSUNG, 32, data.value, 0)) else None;
  }

  /** A stop mark follows the last of `n` bits. */
  predicate StopMark(buf: seq<nat>, n: nat, t: Timing)
    requires 3 + 2 * n < |buf|
  {
    MatchMark(buf[3 + 2 * n], t.bitMark)
  }

  function LgResult(buf: seq<nat>, rawlen: nat): Option<Results>
    requires |buf| == RAWBUF
  {
    if rawlen < 2 * 28 + 1 || !StopMark(buf, 28, LgTiming) then None else HeaderAndBits(buf, 28, LgTiming, LG)
  }

  method DecodeLG(buf: array<nat>, rawlen: nat) returns (r: Option<Results>)
    requires buf.Length == RAWBUF
    ensures r == LgResult(buf[..], rawlen)
  {
    if !MatchMark(buf[1], LgTiming.hdrMark) {
      return None;
    }
    if rawlen < 2 * 28 + 1 {
      return None;
    }
    if !MatchSpace(buf[2], LgTiming.hdrSpace) {
      return None;
    }
    var data := ReadDistanceBits(buf, 3, 28, LgTiming, WORD32);
    if data.None? || !MatchMark(buf[3 + 2 * 28], LgTiming.bitMark) {
      return None;
    }
    r := Some(Results(LG, 28, data.value, 0));
  }

  function JvcResult(buf: seq<nat>, rawlen: nat): Option<Results>
    requires |buf| == RAWBUF
  {
    if rawlen == 34 && MatchMark(buf[1], JvcTiming.bitMark) && MatchMark(buf[rawlen - 1], JvcTiming.bitMark) then
      Some(Results(JVC, 0, REPEAT, 0))
    else if rawlen < 2 * 16 + 1 || !StopMark(buf, 16, JvcTiming) then None
    else HeaderAndBits(buf, 16, JvcTiming, JVC)
  }

  method DecodeJVC(buf: array<nat>, rawlen: nat) returns (r: Option<Results>)
    requires buf.Length == RAWBUF
    ensures r == JvcResult(buf[..], rawlen)
  {
    if rawlen == 34 && MatchMark(buf[1], JvcTiming.bitMark) && MatchMark(buf[rawlen - 1], JvcTiming.bitMark) {
      return Some(Results(JVC, 0, REPEAT, 0));
    }
    if !MatchMark(buf[1], JvcTiming.hdrMark) {
      return None;
    }
    if rawlen < 2 * 16 + 1 {
      return None;
    }
    if !MatchSpace(buf[2], JvcTiming.hdrSpace) {
      return None;
    }
    var data := ReadDistanceBits(buf, 3, 16, JvcTiming, WORD32);
    if data.None? || !MatchMark(buf[3 + 2 * 16], JvcTiming.bitMark) {
      return None;
    }
    r := Some(Results(JVC, 16, data.value, 0));
  }

  /** 16 address bits and 32 value bits. The header space is measured as if it were a mark, and the number of
      entries recorded is not looked at. */
  function PanasonicResult(buf: seq<nat>): Option<Results>
    requires |buf| == RAWBUF
  {
    if !MatchMark(buf[1], PanasonicTiming.hdrMark) || !MatchMark(buf[2], PanasonicTiming.hdrSpace) then None
    else match DistanceBits(buf, 3, 48, PanasonicTiming, 0, WORD64)
         case Some(data) => Some(Results(PANASONIC, 48, data % WORD32, data / WORD32 % WORD16))
         case None => None
  }

  method DecodePanasonic(buf: array<nat>) returns (r: Option<Results>)
    requires buf.Length == RAWBUF
    ensures r == PanasonicResult(buf[..])
  {
    if !MatchMark(buf[1], PanasonicTiming.hdrMark) {
      return None;
    }
    if !MatchMark(buf[2], PanasonicTiming.hdrSpace) {
      return None;
    }
    var data := ReadDistanceBits(buf, 3, 48, PanasonicTiming, WORD64);
    r := if data.Some? then Some(Results(PANASONIC, 48, data.value % WORD32, data.value / WORD32 % WORD16)) else None;
  }

  // ---- pulse width: the mark after each space tells the bit ----

  /** How far a row of bits was read: to entry `offset`, with `data` shifted in. */
  datatype Reading = Reading(offset: nat, data: nat)

  function WidthBits(buf: seq<nat>, rawlen: nat, offset: nat, space: nat, one: nat, zero: nat, data: nat): Option<Reading>
    requires rawlen <= |buf| && space >= MARK_EXCESS
    decreases rawlen - offset
  {
    if offset + 1 >= rawlen || !MatchSpace(buf[offset], space) then Some(Reading(offset, data))
    else if MatchMark(buf[offset + 1], one) then WidthBits(buf, rawlen, offset + 2, space, one, zero, (data * 2 + 1) % WORD32)
    else if MatchMark(buf[offset + 1], zero) then WidthBits(buf, rawlen, offset + 2, space, one, zero, data * 2 % WORD32)
    else None
  }

  method ReadWidthBits(buf: array<nat>, rawlen: nat, start: nat, space: nat, one: nat, zero: nat) returns (r: Option<Reading>)
    requires rawlen <= buf.Length && space >= MARK_EXCESS
    ensures r == WidthBits(buf[..], rawlen, start, space, one, zero, 0)
  {
    var data: nat, offset: nat := 0, start;
    while offset + 1 < rawlen
      invariant WidthBits(buf[..], rawlen, start, space, one, zero, 0) == WidthBits(buf[..], rawlen, offset, space, one, zero, data)
      decreases rawlen - offset
    {
      if !MatchSpace(buf[offset], space) {
        break;
      }
      offset := offset + 1;
      if MatchMark(buf[offset], one) {
        data := (data * 2 + 1) % WORD32;
      } else if MatchMark(buf[offset], zero) {
        data := data * 2 % WORD32;
      } else {
        return None;
      }
      offset := offset + 1;
    }
    r := Some(Reading(offset, data));
  }

  function Counted(reading: Option<Reading>, least: nat, kind: Kind): Option<Results> {
    if reading.None? || reading.value.offset == 0 || (reading.value.offset - 1) / 2 < least then None
    else Some(Results(kind, (reading.value.offset - 1) / 2, reading.value.data, 0))
  }

  function SonyResult(buf: seq<nat>, rawlen: nat): Option<Results>
    requires |buf| == RAWBUF && rawlen <= RAWBUF
  {
    if rawlen < 2 * 12 + 2 then None
    else if buf[0] < 500 then Some(Results(SANYO, 0, REPEAT, 0))
    else if !MatchMark(buf[1], 2400) then None
    else Counted(WidthBits(buf, rawlen, 2, 600, 1200, 600, 0), 12, SONY)
  }

  method DecodeSony(buf: array<nat>, rawlen: nat) returns (r: Option<Results>)
    requires buf.Length == RAWBUF && rawlen <= RAWBUF
    ensures r == SonyResult(buf[..], rawlen)
  {
    if rawlen < 2 * 12 + 2 {
      return None;
    }
    if buf[0] < 500 {
      return Some(Results(SANYO, 0, REPEAT, 0));    // the type really is that of the other protocol
    }
    if !MatchMark(buf[1], 2400) {
      return None;
    }
    var reading := ReadWidthBits(buf, rawlen, 2, 600, 1200, 600);
    r := Counted(reading, 12, SONY);
  }

  function SanyoResult(buf: seq<nat>, rawlen: nat): Option<Results>
    requires |buf| == RAWBUF && rawlen <= RAWBUF
  {
    if rawlen < 2 * 12 + 2 then None
    else if buf[0] < 800 then Some(Results(SANYO, 0, REPEAT, 0))
    else if !MatchMark(buf[1], 3500) || !MatchMark(buf[2], 3500) then None
    else Counted(WidthBits(buf, rawlen, 3, 950, 2400, 700, 0), 12, SANYO)
  }

  method DecodeSanyo(buf: array<nat>, rawlen: nat) returns (r: Option<Results>)
    requires buf.Length == RAWBUF && rawlen <= RAWBUF
    ensures r == SanyoResult(buf[..], rawlen)
  {
    if rawlen < 2 * 12 + 2 {
      return None;
    }
    if buf[0] < 800 {
      return Some(Results(SANYO, 0, REPEAT, 0));
    }
    if !MatchMark(buf[1], 3500) {
      return None;
    }
    if !MatchMark(buf[2], 3500) {
      return None;
    }
    var reading := ReadWidthBits(buf, rawlen, 3, 950, 2400, 700);
    r := Counted(reading, 12, SANYO);
  }

  function MarkFirstBits(buf: seq<nat>, rawlen: nat, offset: nat, data: nat): Option<Reading>
    requires rawlen <= |buf|
    decreases rawlen - offset
  {
    if offset + 1 >= rawlen then Some(Reading(offset, data))
    else
      var bit := if MatchMark(buf[offset], 1950) then Some(1) else if MatchMark(buf[offset], 750) then Some(0) else None;
      if bit.None? then None
      else
        var data' := (data * 2 + bit.value) % WORD32;
        if !MatchSpace(buf[offset + 1], 350) then Some(Reading(offset + 1, data'))
        else MarkFirstBits(buf, rawlen, offset + 2, data')
  }

  function MitsubishiResult(buf: seq<nat>, rawlen: nat): Option<Results>
    requires |buf| == RAWBUF && rawlen <= RAWBUF
  {
    if rawlen < 2 * 16 + 2 || !MatchMark(buf[1], 350) then None
    else Counted(MarkFirstBits(buf, rawlen, 2, 0), 16, MITSUBISHI)
  }

  method DecodeMitsubishi(buf: array<nat>, rawlen: nat) returns (r: Option<Results>)
    requires buf.Length == RAWBUF && rawlen <= RAWBUF
    ensures r == MitsubishiResult(buf[..], rawlen)
  {
    if rawlen < 2 * 16 + 2 {
      return None;
    }
    if !MatchMark(buf[1], 350) {
      return None;
    }
    var data: nat, offset: nat := 0, 2;
    while offset + 1 < rawlen
      invariant offset >= 2
      invariant MarkFirstBits(buf[..], rawlen, 2, 0) == MarkFirstBits(buf[..], rawlen, offset, data)
      decreases rawlen - offset
    {
      if MatchMark(buf[offset], 1950) {
        data := (data * 2 + 1) % WORD32;
      } else if MatchMark(buf[offset], 750) {
        data := data * 2 % WORD32;
      } else {
        return None;
      }
      offset := offset + 1;
      if !MatchSpace(buf[offset], 350) {
        r := Counted(Some(Reading(offset, data)), 16, MITSUBISHI);
        return;
      }
      offset := offset + 1;
    }
    r := Counted(Some(Reading(offset, data)), 16, MITSUBISHI);
  }

  // ---- Manchester: the recording is first turned back into levels ----

  /** How many intervals of `t1` an entry of level `mark` lasts, or 0 if it is no multiple from 1 to 3. */
  function Avail(width: nat, mark: bool, t1: nat): (n: nat)
    requires t1 >= MARK_EXCESS
    ensures n <= 3
  {
    if Match(width, Corrected(t1, mark)) then 1
    else if Match(width, Corrected(2 * t1, mark)) then 2
    else if Match(width, Corrected(3 * t1, mark)) then 3
    else 0
  }

  function Corrected(us: nat, mark: bool): nat
    requires us >= MARK_EXCESS
  {
    if mark then us + MARK_EXCESS else us - MARK_EXCESS
  }

  /** Where the next level is to come from: entry `offset`, of which `used` intervals are spent. */
  datatype Position = Position(offset: nat, used: nat)

  /** A mark, a space, or nothing for an entry that is no multiple of `t1`; and the position after it. */
  function RcLevel(buf: seq<nat>, rawlen: nat, at: Position, t1: nat): (Option<bool>, Position)
    requires rawlen <= |buf| && t1 >= MARK_EXCESS
  {
    if at.offset >= rawlen then (Some(false), at)    // after the end of the recording, assume space
    else
      var mark := at.offset % 2 == 1;
      var avail := Avail(buf[at.offset], mark, t1);
      if avail == 0 then (None, at)
      else (Some(mark), if at.used + 1 >= avail then Position(at.offset + 1, 0) else Position(at.offset, at.used + 1))
  }

  method GetRClevel(buf: array<nat>, rawlen: nat, offset: nat, used: nat, t1: nat)
    returns (level: Option<bool>, offset': nat, used': nat)
    requires rawlen <= buf.Length && t1 >= MARK_EXCESS
    ensures (level, Position(offset', used')) == RcLevel(buf[..], rawlen, Position(offset, used), t1)
  {
    offset', used' := offset, used;
    if offset >= rawlen {
      return Some(false), offset', used';
    }
    var width := buf[offset];
    var val := offset % 2 == 1;
    var avail;
    if Match(width, Corrected(t1, val)) {
      avail := 1;
    } else if Match(width, Corrected(2 * t1, val)) {
      avail := 2;
    } else if Match(width, Corrected(3 * t1, val)) {
      avail := 3;
    } else {
      return None, offset', used';
    }
    used' := used' + 1;
    if used' >= avail {
      used' := 0;
      offset' := offset' + 1;
    }
    level := Some(val);
  }

  /** Every level that is taken moves the position on; an entry gives three levels at most. */
  lemma LevelAdvances(buf: seq<nat>, rawlen: nat, at: Position, t1: nat)
    requires rawlen <= |buf| && t1 >= MARK_EXCESS && at.used < 3
    ensures var (level, at') := RcLevel(buf, rawlen, at, t1);
            && at'.used < 3
            && (if at.offset >= rawlen || level.None? then at' == at
                else at'.offset == at.offset + 1 || (at'.offset == at.offset && at'.used == at.used + 1))
  {
  }

  /** What the bit loop of RC5 or RC6 has gathered. */
  datatype Bits = Bits(count: nat, data: nat)

  function WithBit(b: Bits, one: bool): Bits {
    Bits(b.count + 1, (b.data * 2 + if one then 1 else 0) % WORD32)
  }

  /** The position after `n` more levels that are all `level`, if they are. */
  function SameLevels(buf: seq<nat>, rawlen: nat, at: Position, t1: nat, level: bool, n: nat): Option<Position>
    requires rawlen <= |buf| && t1 >= MARK_EXCESS
    decreases n
  {
    if n == 0 then Some(at)
    else
      var (l, at') := RcLevel(buf, rawlen, at, t1);
      if l != Some(level) then None else SameLevels(buf, rawlen, at', t1, level, n - 1)
  }

  /** One bit: `k` intervals of one level and `k` of the other; the first level, and the position after it. */
  function RcBit(buf: seq<nat>, rawlen: nat, at: Position, t1: nat, k: nat): Option<(bool, Position)>
    requires rawlen <= |buf| && t1 >= MARK_EXCESS && k > 0
  {
    var (l, _) := RcLevel(buf, rawlen, at, t1);
    if l.None? then None
    else
      match SameLevels(buf, rawlen, at, t1, l.value, k)
      case None => None
      case Some(mid) =>
        match SameLevels(buf, rawlen, mid, t1, !l.value, k)
        case None => None
        case Some(end) => Some((l.value, end))
  }

  lemma {:induction false} SameLevelsAdvance(buf: seq<nat>, rawlen: nat, at: Position, t1: nat, level: bool, n: nat)
    requires rawlen <= |buf| && t1 >= MARK_EXCESS && at.used < 3
    ensures match SameLevels(buf, rawlen, at, t1, level, n)
            case None => true
            case Some(at') =>
              && at'.used < 3 && at'.offset >= at.offset && (at'.offset == at.offset ==> at'.used >= at.used)
              && (n > 0 && at.offset < rawlen ==> at'.offset > at.offset || at'.used > at.used)
              && (at.offset >= rawlen ==> at' == at)
    decreases n
  {
    if n > 0 {
      LevelAdvances(buf, rawlen, at, t1);
      var (l, at1) := RcLevel(buf, rawlen, at, t1);
      if l == Some(level) {
        SameLevelsAdvance(buf, rawlen, at1, t1, level, n - 1);
      }
    }
  }

  lemma RcBitAdvances(buf: seq<nat>, rawlen: nat, at: Position, t1: nat, k: nat)
    requires rawlen <= |buf| && t1 >= MARK_EXCESS && at.used < 3 && k > 0 && at.offset < rawlen
    ensures match RcBit(buf, rawlen, at, t1, k)
            case None => true
            case Some((_, at')) =>
              at'.used < 3 && (at'.offset > at.offset || (at'.offset == at.offset && at'.used > at.used))
  {
    var (l, _) := RcLevel(buf, rawlen, at, t1);
    if l.Some? {
      SameLevelsAdvance(buf, rawlen, at, t1, l.value, k);
      var mid := SameLevels(buf, rawlen, at, t1, l.value, k);
      if mid.Some? {
        SameLevelsAdvance(buf, rawlen, mid.value, t1, !l.value, k);
      }
    }
  }

  /** All bits up to the end of the recording. A first level of mark makes a bit of value `markFirst`; bit number
      `wide`, if there is one, is twice as wide as the others. */
  function RcBits(buf: seq<nat>, rawlen: nat, at: Position, t1: nat, markFirst: bool, wide: Option<nat>, b: Bits): Option<Bits>
    requires rawlen <= |buf| && t1 >= MARK_EXCESS && at.used < 3
    decreases rawlen - at.offset, 3 - at.used
  {
    if at.offset >= rawlen then Some(b)
    else
      var k := if wide == Some(b.count) then 2 else 1;
      RcBitAdvances(buf, rawlen, at, t1, k);
      match RcBit(buf, rawlen, at, t1, k)
      case None => None
      case Some((first, at')) => RcBits(buf, rawlen, at', t1, markFirst, wide, WithBit(b, first == markFirst))
  }

  /** The position after the levels `ls`, if those are the ones that come. */
  function Expect(buf: seq<nat>, rawlen: nat, at: Position, t1: nat, ls: seq<bool>): Option<Position>
    requires rawlen <= |buf| && t1 >= MARK_EXCESS
    decreases |ls|
  {
    if ls == [] then Some(at)
    else
      var (l, at') := RcLevel(buf, rawlen, at, t1);
      if l != Some(ls[0]) then None else Expect(buf, rawlen, at', t1, ls[1..])
  }

  lemma {:induction false} ExpectKeepsUsed(buf: seq<nat>, rawlen: nat, at: Position, t1: nat, ls: seq<bool>)
    requires rawlen <= |buf| && t1 >= MARK_EXCESS && at.used < 3
    ensures Expect(buf, rawlen, at, t1, ls).Some? ==> Expect(buf, rawlen, at, t1, ls).value.used < 3
    decreases |ls|
  {
    if ls != [] {
      LevelAdvances(buf, rawlen, at, t1);
      ExpectKeepsUsed(buf, rawlen, RcLevel(buf, rawlen, at, t1).1, t1, ls[1..]);
    }
  }

  function Decoded(kind: Kind, b: Option<Bits>): Option<Results> {
    if b.None? then None else Some(Results(kind, b.value.count, b.value.data, 0))
  }

  function Rc5Result(buf: seq<nat>, rawlen: nat): Option<Results>
    requires |buf| == RAWBUF && rawlen <= RAWBUF
  {
    if rawlen < 11 + 2 then None
    else
      ExpectKeepsUsed(buf, rawlen, Position(1, 0), RC5_T1, [true, false, true]);
      match Expect(buf, rawlen, Position(1, 0), RC5_T1, [true, false, true])
      case None => None
      case Some(at) => Decoded(RC5, RcBits(buf, rawlen, at, RC5_T1, false, None, Bits(0, 0)))
  }

  function Rc6Result(buf: seq<nat>, rawlen: nat): Option<Results>
    requires |buf| == RAWBUF && rawlen <= RAWBUF
  {
    if rawlen < 1 || !MatchMark(buf[1], 2666) || !MatchSpace(buf[2], 889) then None
    else
      ExpectKeepsUsed(buf, rawlen, Position(3, 0), RC6_T1, [true, false]);
      match Expect(buf, rawlen, Position(3, 0), RC6_T1, [true, false])
      case None => None
      case Some(at) => Decoded(RC6, RcBits(buf, rawlen, at, RC6_T1, true, Some(3), Bits(0, 0)))
  }

  method DecodeRC5(buf: array<nat>, rawlen: nat) returns (r: Option<Results>)
    requires buf.Length == RAWBUF && rawlen <= RAWBUF
    ensures r == Rc5Result(buf[..], rawlen)
  {
    hide RcLevel, RcBits, RcBit;
    if rawlen < 11 + 2 {
      return None;
    }
    var offset: nat, used: nat := 1, 0;    // skip the gap
    var level;
    // the start bits
    level, offset, used := GetRClevel(buf, rawlen, offset, used, RC5_T1);
    if level != Some(true) { return None; }
    level, offset, used := GetRClevel(buf, rawlen, offset, used, RC5_T1);
    if level != Some(false) { return None; }
    level, offset, used := GetRClevel(buf, rawlen, offset, used, RC5_T1);
    if level != Some(true) { return None; }
    ExpectKeepsUsed(buf[..], rawlen, Position(1, 0), RC5_T1, [true, false, true]);
    ExpectThree(buf[..], rawlen, Position(1, 0), RC5_T1, true, false, true);
    var bits := ReadRcBits(buf, rawlen, offset, used, RC5_T1, false, None);
    r := Decoded(RC5, bits);
  }

  lemma ExpectTwo(buf: seq<nat>, rawlen: nat, at: Position, t1: nat, x: bool, y: bool)
    requires rawlen <= |buf| && t1 >= MARK_EXCESS
    ensures var (l1, at1) := RcLevel(buf, rawlen, at, t1);
            var (l2, at2) := RcLevel(buf, rawlen, at1, t1);
            Expect(buf, rawlen, at, t1, [x, y]) == if l1 == Some(x) && l2 == Some(y) then Some(at2) else None
  {
    hide RcLevel;
    assert [x, y][1..] == [y] && [y][1..] == [];
    var (l1, at1) := RcLevel(buf, rawlen, at, t1);
    var (l2, at2) := RcLevel(buf, rawlen, at1, t1);
    assert Expect(buf, rawlen, at1, t1, [y]) == if l2 == Some(y) then Expect(buf, rawlen, at2, t1, []) else None;
  }

  lemma ExpectThree(buf: seq<nat>, rawlen: nat, at: Position, t1: nat, x: bool, y: bool, z: bool)
    requires rawlen <= |buf| && t1 >= MARK_EXCESS
    ensures var (l1, at1) := RcLevel(buf, rawlen, at, t1);
            var (l2, at2) := RcLevel(buf, rawlen, at1, t1);
            var (l3, at3) := RcLevel(buf, rawlen, at2, t1);
            Expect(buf, rawlen, at, t1, [x, y, z]) ==
            if l1 == Some(x) && l2 == Some(y) && l3 == Some(z) then Some(at3) else None
  {
    hide RcLevel;
    assert [x, y, z][1..] == [y, z];
    ExpectTwo(buf, rawlen, RcLevel(buf, rawlen, at, t1).1, t1, y, z);
  }

  method DecodeRC6(buf: array<nat>, rawlen: nat) returns (r: Option<Results>)
    requires buf.Length == RAWBUF && rawlen <= RAWBUF
    ensures r == Rc6Result(buf[..], rawlen)
  {
    hide RcLevel, RcBits, RcBit;
    if rawlen < 1 {
      return None;
    }
    if !MatchMark(buf[1], 2666) {
      return None;
    }
    if !MatchSpace(buf[2], 889) {
      return None;
    }
    var offset: nat, used: nat := 3, 0;
    var level;
    // the start bit
    level, offset, used := GetRClevel(buf, rawlen, offset, used, RC6_T1);
    if level != Some(true) { return None; }
    level, offset, used := GetRClevel(buf, rawlen, offset, used, RC6_T1);
    if level != Some(false) { return None; }
    ExpectKeepsUsed(buf[..], rawlen, Position(3, 0), RC6_T1, [true, false]);
    ExpectTwo(buf[..], rawlen, Position(3, 0), RC6_T1, true, false);
    var bits := ReadRcBits(buf, rawlen, offset, used, RC6_T1, true, Some(3));
    r := Decoded(RC6, bits);
  }

  /** The bit loop: two levels a bit, or four for the wide one, which must agree pairwise. */
  method ReadRcBits(buf: array<nat>, rawlen: nat, start: nat, startUsed: nat, t1: nat, markFirst: bool, wide: Option<nat>)
    returns (r: Option<Bits>)
    requires rawlen <= buf.Length && t1 >= MARK_EXCESS && startUsed < 3
    ensures r == RcBits(buf[..], rawlen, Position(start, startUsed), t1, markFirst, wide, Bits(0, 0))
  {
    hide RcLevel, RcBit;
    var offset, used := start, startUsed;
    var nbits: nat, data: nat := 0, 0;
    while offset < rawlen
      invariant used < 3
      invariant RcBits(buf[..], rawlen, Position(start, startUsed), t1, markFirst, wide, Bits(0, 0)) ==
                RcBits(buf[..], rawlen, Position(offset, used), t1, markFirst, wide, Bits(nbits, data))
      decreases rawlen - offset, 3 - used
    {
      RcBitAdvances(buf[..], rawlen, Position(offset, used), t1, if wide == Some(nbits) then 2 else 1);
      var bit;
      bit, offset, used := ReadRcBit(buf, rawlen, offset, used, t1, wide == Some(nbits));
      if bit.None? {
        return None;
      }
      data := (data * 2 + if bit.value == markFirst then 1 else 0) % WORD32;
      nbits := nbits + 1;
    }
    r := Some(Bits(nbits, data));
  }

  /** A bit, level by level. */
  lemma RcBitLevels(buf: seq<nat>, rawlen: nat, at: Position, t1: nat)
    requires rawlen <= |buf| && t1 >= MARK_EXCESS
    ensures var (a, at1) := RcLevel(buf, rawlen, at, t1);
            var (b, at2) := RcLevel(buf, rawlen, at1, t1);
            RcBit(buf, rawlen, at, t1, 1) == if a.Some? && b == Some(!a.value) then Some((a.value, at2)) else None
  {
    hide RcLevel;
    var (a, at1) := RcLevel(buf, rawlen, at, t1);
    if a.Some? {
      SameOne(buf, rawlen, at, t1, a.value);
      SameOne(buf, rawlen, at1, t1, !a.value);
    }
  }

  lemma WideBitLevels(buf: seq<nat>, rawlen: nat, at: Position, t1: nat)
    requires rawlen <= |buf| && t1 >= MARK_EXCESS
    ensures var (a, at1) := RcLevel(buf, rawlen, at, t1);
            var (a', at2) := RcLevel(buf, rawlen, at1, t1);
            var (b, at3) := RcLevel(buf, rawlen, at2, t1);
            var (b', at4) := RcLevel(buf, rawlen, at3, t1);
            RcBit(buf, rawlen, at, t1, 2) ==
            if a.Some? && a' == a && b == Some(!a.value) && b' == b then Some((a.value, at4)) else None
  {
    hide RcLevel;
    var (a, at1) := RcLevel(buf, rawlen, at, t1);
    if a.Some? {
      SameTwo(buf, rawlen, at, t1, a.value);
      var (_, at2) := RcLevel(buf, rawlen, at1, t1);
      SameTwo(buf, rawlen, at2, t1, !a.value);
    }
  }

  lemma SameOne(buf: seq<nat>, rawlen: nat, at: Position, t1: nat, level: bool)
    requires rawlen <= |buf| && t1 >= MARK_EXCESS
    ensures var (l, at') := RcLevel(buf, rawlen, at, t1);
            SameLevels(buf, rawlen, at, t1, level, 1) == if l == Some(level) then Some(at') else None
  {
    hide RcLevel;
    var (l, at') := RcLevel(buf, rawlen, at, t1);
    assert SameLevels(buf, rawlen, at', t1, level, 0) == Some(at');
  }

  lemma SameTwo(buf: seq<nat>, rawlen: nat, at: Position, t1: nat, level: bool)
    requires rawlen <= |buf| && t1 >= MARK_EXCESS
    ensures var (l, at1) := RcLevel(buf, rawlen, at, t1);
            var (l', at2) := RcLevel(buf, rawlen, at1, t1);
            SameLevels(buf, rawlen, at, t1, level, 2) == if l == Some(level) && l' == l then Some(at2) else None
  {
    hide RcLevel;
    var (l, at1) := RcLevel(buf, rawlen, at, t1);
    SameOne(buf, rawlen, at1, t1, level);
  }

  method ReadRcBit(buf: array<nat>, rawlen: nat, start: nat, startUsed: nat, t1: nat, wide: bool)
    returns (first: Option<bool>, offset: nat, used: nat)
    requires rawlen <= buf.Length && t1 >= MARK_EXCESS
    ensures match RcBit(buf[..], rawlen, Position(start, startUsed), t1, if wide then 2 else 1)
            case None => first == None
            case Some((l, at)) => first == Some(l) && Position(offset, used) == at
  {
    hide RcLevel, RcBit;
    RcBitLevels(buf[..], rawlen, Position(start, startUsed), t1);
    WideBitLevels(buf[..], rawlen, Position(start, startUsed), t1);
    offset, used := start, startUsed;
    var levelA, levelB, again;
    levelA, offset, used := GetRClevel(buf, rawlen, offset, used, t1);
    if wide {
      again, offset, used := GetRClevel(buf, rawlen, offset, used, t1);
      if levelA != again { return None, offset, used; }
    }
    levelB, offset, used := GetRClevel(buf, rawlen, offset, used, t1);
    if wide {
      again, offset, used := GetRClevel(buf, rawlen, offset, used, t1);
      if levelB != again { return None, offset, used; }
    }
    if levelA.Some? && levelB.Some? && levelA.value != levelB.value {
      first := levelA;
    } else {
      first := None;
    }
  }

  // ---- trying them all ----

  /** The first decoder that recognises the recording. */
  function FirstOf(a: Option<Results>, b: Option<Results>): Option<Results> {
    if a.Some? then a else b
  }

  function DecodeResult(buf: seq<nat>, rawlen: nat): Option<Results>
    requires |buf| == RAWBUF && rawlen <= RAWBUF
  {
    FirstOf(NecResult(buf, rawlen),
    FirstOf(SonyResult(buf, rawlen),
    FirstOf(SanyoResult(buf, rawlen),
    FirstOf(MitsubishiResult(buf, rawlen),
    FirstOf(Rc5Result(buf, rawlen),
    FirstOf(Rc6Result(buf, rawlen),
    FirstOf(PanasonicResult(buf),
    FirstOf(LgResult(buf, rawlen),
    FirstOf(JvcResult(buf, rawlen), SamsungResult(buf, rawlen))))))))))
  }

  /** Nothing before a recording is complete; then the ten attempts, up to the one that hashes whatever is left. */
  method Decode(irparams: IrParams) returns (r: Option<Results>)
    requires IrSampler.Valid(irparams.State())
    ensures r == if irparams.rcvstate.Stop? then DecodeResult(irparams.rawbuf[..], irparams.rawlen) else None
  {
    hide NecResult, SonyResult, SanyoResult, MitsubishiResult, Rc5Result, Rc6Result, PanasonicResult, LgResult,
         JvcResult, SamsungResult;
    if irparams.rcvstate != Stop {
      return None;
    }
    var buf, rawlen := irparams.rawbuf, irparams.rawlen;
    r := DecodeNEC(buf, rawlen);
    if r.Some? { return; }
    r := DecodeSony(buf, rawlen);
    if r.Some? { return; }
    r := DecodeSanyo(buf, rawlen);
    if r.Some? { return; }
    r := DecodeMitsubishi(buf, rawlen);
    if r.Some? { return; }
    r := DecodeRC5(buf, rawlen);
    if r.Some? { return; }
    r := DecodeRC6(buf, rawlen);
    if r.Some? { return; }
    r := DecodePanasonic(buf);
    if r.Some? { return; }
    r := DecodeLG(buf, rawlen);
    if r.Some? { return; }
    r := DecodeJVC(buf, rawlen);
    if r.Some? { return; }
    r := DecodeSAMSUNG(buf, rawlen);
  }
}
