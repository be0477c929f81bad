/** Pulse-distance and pulse-width frames through the air: NEC, Samsung, JVC, Panasonic and Sony. */
module IrDistance {
  import opened Arithmetic
  import opened Options
  import opened IrSignal
  import opened IrSampler
  import opened IrDecoders
  import opened IrSenders
  import opened IrCapture
  import opened IrWords

  // ---- the widths of a frame ----

  /** How a bit is sent: a mark and a space. */
  datatype Pair = Pair(mark: nat, space: nat)

  /** A header, and a mark and a space for each bit. */
  function PairWidths(header: seq<nat>, bits: seq<bool>, one: Pair, zero: Pair): (ws: seq<nat>)
    ensures |ws| == |header| + 2 * |bits|
    decreases |bits|
  {
    if bits == [] then header
    else
      var b := if bits[|bits| - 1] then one else zero;
      PairWidths(header, bits[..|bits| - 1], one, zero) + [b.mark, b.space]
  }

  lemma {:induction false} PairWidthsAt(header: seq<nat>, bits: seq<bool>, one: Pair, zero: Pair, i: nat)
    requires i < |bits|
    ensures var ws := PairWidths(header, bits, one, zero);
            && ws[..|header|] == header
            && ws[|header| + 2 * i] == (if bits[i] then one else zero).mark
            && ws[|header| + 2 * i + 1] == (if bits[i] then one else zero).space
    decreases |bits|
  {
    if i < |bits| - 1 {
      PairWidthsAt(header, bits[..|bits| - 1], one, zero, i);
    } else if |bits| > 1 {
      PairWidthsAt(header, bits[..|bits| - 1], one, zero, 0);
    }
  }

  /** A mark after a space, and a space after a mark, do not merge with anything. */
  lemma ExtendPair(ws: seq<nat>, m: nat, s: nat)
    requires |ws| % 2 == 0 && m > 0 && s > 0
    ensures Extend(Extend(ws, Mark(m)), Space(s)) == ws + [m, s]
  {
    assert Extend(ws, Mark(m)) == ws + [m];
  }

  function OnePair(t: Timing): Pair { Pair(t.bitMark, t.oneSpace) }
  function ZeroPair(t: Timing): Pair { Pair(t.bitMark, t.zeroSpace) }

  /** A timing whose marks and spaces can be told apart. */
  predicate Separable(t: Timing) {
    && Proper(t)
    && 200 <= t.hdrMark <= 20000 && 300 <= t.hdrSpace <= 5000
    && 200 <= t.bitMark <= 20000 && 300 <= t.oneSpace <= 5000
    && 300 <= t.zeroSpace <= USECPERTICK * TicksLow(t.oneSpace - MARK_EXCESS) && t.zeroSpace <= 5000
  }

  function DistanceWidths(t: Timing, bits: seq<bool>): seq<nat> {
    PairWidths([t.hdrMark, t.hdrSpace], bits, OnePair(t), ZeroPair(t)) + [t.bitMark]
  }

  /** After whatever ends in a space, or at the beginning. */
  lemma {:induction false} DistancePairs(header: seq<Segment>, t: Timing, bits: seq<bool>)
    requires t.bitMark > 0 && t.oneSpace > 0 && t.zeroSpace > 0 && |Widths(header)| % 2 == 0
    ensures Widths(header + DistanceSegments(t, bits)) == PairWidths(Widths(header), bits, OnePair(t), ZeroPair(t))
    decreases |bits|
  {
    hide Widths, Extend;
    if bits == [] {
      assert header + [] == header;
    } else {
      var init, b := bits[..|bits| - 1], bits[|bits| - 1];
      DistancePairs(header, t, init);
      var before, m, s := header + DistanceSegments(t, init), t.bitMark, if b then t.oneSpace else t.zeroSpace;
      assert header + DistanceSegments(t, bits) == before + [Mark(m)] + [Space(s)];
      WidthsSnoc(before, Mark(m));
      WidthsSnoc(before + [Mark(m)], Space(s));
      ExtendPair(Widths(before), m, s);
    }
  }

  lemma HeaderWidths(m: nat, s: nat)
    requires m > 0 && s > 0
    ensures Widths([Mark(m), Space(s)]) == [m, s]
  {
    assert [Mark(m), Space(s)] == [] + [Mark(m)] + [Space(s)];
    WidthsSnoc([], Mark(m));
    WidthsSnoc([] + [Mark(m)], Space(s));
  }

  lemma DistanceFrameWidths(t: Timing, bits: seq<bool>)
    requires Separable(t)
    ensures Widths(DistanceFrame(t, bits)) == DistanceWidths(t, bits)
    ensures |DistanceWidths(t, bits)| == 2 * |bits| + 3
    ensures Audible(DistanceWidths(t, bits)) && UpToLastMark(DistanceWidths(t, bits)) == DistanceWidths(t, bits)
  {
    hide Widths, DistanceSegments, PairWidths;
    var before := [Mark(t.hdrMark), Space(t.hdrSpace)] + DistanceSegments(t, bits);
    HeaderWidths(t.hdrMark, t.hdrSpace);
    DistancePairs([Mark(t.hdrMark), Space(t.hdrSpace)], t, bits);
    assert DistanceFrame(t, bits) == before + [Mark(t.bitMark)] + [Space(0)];
    WidthsSnoc(before, Mark(t.bitMark));
    WidthsSnoc(before + [Mark(t.bitMark)], Space(0));
    DistanceAudible(t, bits);
  }

  lemma DistanceAudible(t: Timing, bits: seq<bool>)
    requires Separable(t)
    ensures Audible(DistanceWidths(t, bits))
    ensures DistanceWidths(t, bits)[0] == t.hdrMark && DistanceWidths(t, bits)[1] == t.hdrSpace
  {
    hide PairWidths;
    var ws := DistanceWidths(t, bits);
    NoPairs([t.hdrMark, t.hdrSpace], OnePair(t), ZeroPair(t));
    if bits != [] {
      PairWidthsAt([t.hdrMark, t.hdrSpace], bits, OnePair(t), ZeroPair(t), 0);
      assert ws[0] == ws[..2][0] && ws[1] == ws[..2][1];
    }
    forall i | 2 <= i < |ws| - 1
      ensures 200 <= ws[i] && (if i % 2 == 0 then ws[i] <= 20000 else ws[i] <= 5000)
    {
      PairWidthsAt([t.hdrMark, t.hdrSpace], bits, OnePair(t), ZeroPair(t), i / 2 - 1);
      assert i == 2 + 2 * (i / 2 - 1) || i == 2 + 2 * (i / 2 - 1) + 1;
    }
  }

  lemma NoPairs(header: seq<nat>, one: Pair, zero: Pair)
    ensures PairWidths(header, [], one, zero) == header
  {
  }

  // ---- reading pulse distances ----

  /** Entries 3 + 2j and 4 + 2j read as the bit `b`. */
  predicate BitAt(buf: seq<nat>, t: Timing, j: nat, b: bool)
    requires Proper(t) && 4 + 2 * j < |buf|
  {
    && MatchMark(buf[3 + 2 * j], t.bitMark)
    && MatchSpace(buf[4 + 2 * j], t.oneSpace) == b
    && (!b ==> MatchSpace(buf[4 + 2 * j], t.zeroSpace))
  }

  lemma {:induction false} BitsDecoded(buf: seq<nat>, t: Timing, bits: seq<bool>, i: nat, data: nat, modulus: nat)
    requires Proper(t) && modulus > 0 && i <= |bits| && 3 + 2 * |bits| <= |buf|
    requires forall j :: i <= j < |bits| ==> BitAt(buf, t, j, bits[j])
    ensures DistanceBits(buf, 3 + 2 * i, |bits| - i, t, data, modulus) == Some(ShiftedIn(data, bits[i..], modulus))
    decreases |bits| - i
  {
    hide MatchMark, MatchSpace;
    if i < |bits| {
      assert BitAt(buf, t, i, bits[i]);
      assert bits[i..][1..] == bits[i + 1..];
      BitsDecoded(buf, t, bits, i + 1, (data * 2 + Bit(bits[i])) % modulus, modulus);
    }
  }

  lemma BitSeen(buf: seq<nat>, t: Timing, bits: seq<bool>, lag: nat -> nat, counts: seq<nat>, j: nat)
    requires Separable(t) && UsualLag(lag) && 4 + 2 * |bits| <= RAWBUF && j < |bits|
    requires InBuffer(buf, counts) && Recording(DistanceWidths(t, bits), lag, counts)
    ensures BitAt(buf, t, j, bits[j])
  {
    hide PairWidths, Recording, InBuffer, MatchMark, MatchSpace, TicksLow;
    assert |buf| == RAWBUF by { BufferLength(buf, counts); }
    var ws, b := DistanceWidths(t, bits), bits[j];
    PairWidthsAt([t.hdrMark, t.hdrSpace], bits, OnePair(t), ZeroPair(t), j);
    EntrySeen(buf, ws, lag, counts, 3 + 2 * j);
    EntrySeen(buf, ws, lag, counts, 4 + 2 * j);
    var c, d := buf[3 + 2 * j], buf[4 + 2 * j];
    MarkMatches(t.bitMark, lag(2 + 2 * j), c);
    if b {
      SpaceMatches(t.oneSpace, lag(3 + 2 * j), d);
    } else {
      SpaceMatches(t.zeroSpace, lag(3 + 2 * j), d);
      ShorterSpace(t.zeroSpace, lag(3 + 2 * j), d, t.oneSpace);
    }
  }

  /** Everything a pulse-distance decoder looks at. */
  lemma DistanceRead(buf: seq<nat>, t: Timing, bits: seq<bool>, lag: nat -> nat, counts: seq<nat>, modulus: nat)
    requires Separable(t) && UsualLag(lag) && 4 + 2 * |bits| <= RAWBUF && modulus > 0
    requires InBuffer(buf, counts) && Recording(DistanceWidths(t, bits), lag, counts)
    ensures |buf| == RAWBUF && Entry(buf, 1, t.hdrMark, lag) && Entry(buf, 2, t.hdrSpace, lag)
    ensures MatchMark(buf[1], t.hdrMark) && MatchSpace(buf[2], t.hdrSpace)
    ensures DistanceBits(buf, 3, |bits|, t, 0, modulus) == Some(ShiftedIn(0, bits, modulus))
    ensures StopMark(buf, |bits|, t)
  {
    hide PairWidths, Recording, InBuffer, MatchMark, MatchSpace, TicksLow, BitAt, DistanceBits;
    BufferLength(buf, counts);
    var ws := DistanceWidths(t, bits);
    DistanceAudible(t, bits);
    EntrySeen(buf, ws, lag, counts, 1);
    EntrySeen(buf, ws, lag, counts, 2);
    EntrySeen(buf, ws, lag, counts, 3 + 2 * |bits|);
    MarkMatches(t.hdrMark, lag(0), buf[1]);
    SpaceMatches(t.hdrSpace, lag(1), buf[2]);
    MarkMatches(t.bitMark, lag(2 + 2 * |bits|), buf[3 + 2 * |bits|]);
    forall j | 0 <= j < |bits| ensures BitAt(buf, t, j, bits[j]) {
      BitSeen(buf, t, bits, lag, counts, j);
    }
    BitsDecoded(buf, t, bits, 0, 0, modulus);
    assert bits[0..] == bits;
  }

  // ---- pulse width ----

  const SonyOne := Pair(1200, 600)
  const SonyZero := Pair(600, 600)

  function SonyWidths(bits: seq<bool>): seq<nat> {
    PairWidths([2400, 600], bits, SonyOne, SonyZero)
  }

  lemma {:induction false} SonyFrameWidths(bits: seq<bool>)
    ensures Widths(SonyFrame(bits)) == SonyWidths(bits)
    decreases |bits|
  {
    hide Widths, Extend;
    var header := [Mark(2400), Space(600)];
    if bits == [] {
      assert header + [] == header;
      HeaderWidths(2400, 600);
    } else {
      var init, b := bits[..|bits| - 1], bits[|bits| - 1];
      SonyFrameWidths(init);
      var before, m := SonyFrame(init), if b then 1200 else 600;
      assert SonyFrame(bits) == before + [Mark(m)] + [Space(600)];
      WidthsSnoc(before, Mark(m));
      WidthsSnoc(before + [Mark(m)], Space(600));
      ExtendPair(Widths(before), m, 600);
    }
  }

  lemma SonyWidthAt(bits: seq<bool>, i: nat)
    requires i < 2 * |bits| + 2
    ensures |SonyWidths(bits)| == 2 * |bits| + 2
    ensures SonyWidths(bits)[i] ==
            if i == 0 then 2400 else if i % 2 == 1 then 600 else if bits[i / 2 - 1] then 1200 else 600
  {
    hide PairWidths;
    var ws := SonyWidths(bits);
    NoPairs([2400, 600], SonyOne, SonyZero);
    if bits != [] {
      PairWidthsAt([2400, 600], bits, SonyOne, SonyZero, if i < 2 then 0 else i / 2 - 1);
      assert ws[0] == ws[..2][0] && ws[1] == ws[..2][1];
      assert i < 2 || i == 2 + 2 * (i / 2 - 1) || i == 2 + 2 * (i / 2 - 1) + 1;
    }
  }

  lemma SonyAudible(bits: seq<bool>)
    ensures Audible(SonyWidths(bits)) && |SonyWidths(bits)| == 2 * |bits| + 2
    ensures UpToLastMark(SonyWidths(bits)) == SonyWidths(bits)[..2 * |bits| + 1]
  {
    forall i | 0 <= i < |SonyWidths(bits)| ensures 600 <= SonyWidths(bits)[i] <= 2400 {
      SonyWidthAt(bits, i);
    }
    SonyWidthAt(bits, 0);
  }

  /** Entries 2 + 2j and 3 + 2j read as the bit `b`. */
  predicate SonyBitAt(buf: seq<nat>, j: nat, b: bool)
    requires 3 + 2 * j < |buf|
  {
    && MatchSpace(buf[2 + 2 * j], 600)
    && MatchMark(buf[3 + 2 * j], 1200) == b
    && (!b ==> MatchMark(buf[3 + 2 * j], 600))
  }

  lemma SonyBitSeen(buf: seq<nat>, bits: seq<bool>, lag: nat -> nat, counts: seq<nat>, j: nat)
    requires UsualLag(lag) && |bits| <= 32 && j < |bits|
    requires InBuffer(buf, counts) && Recording(UpToLastMark(SonyWidths(bits)), lag, counts)
    ensures |buf| == RAWBUF && SonyBitAt(buf, j, bits[j])
  {
    hide PairWidths, Recording, InBuffer, MatchMark, MatchSpace, SonyWidths;
    BufferLength(buf, counts);
    SonyAudible(bits);
    var ws := SonyWidths(bits)[..2 * |bits| + 1];
    SonyWidthAt(bits, 1 + 2 * j);
    SonyWidthAt(bits, 2 + 2 * j);
    EntrySeen(buf, ws, lag, counts, 2 + 2 * j);
    EntrySeen(buf, ws, lag, counts, 3 + 2 * j);
    SpaceMatches(600, lag(1 + 2 * j), buf[2 + 2 * j]);
    var c := buf[3 + 2 * j];
    if bits[j] {
      MarkMatches(1200, lag(2 + 2 * j), c);
    } else {
      MarkMatches(600, lag(2 + 2 * j), c);
      ShorterMark(600, lag(2 + 2 * j), c, 1200);
    }
  }

  lemma {:induction false} SonyBitsDecoded(buf: seq<nat>, rawlen: nat, bits: seq<bool>, i: nat, data: nat)
    requires i <= |bits| && rawlen == 2 * |bits| + 2 <= |buf|
    requires forall j :: i <= j < |bits| ==> SonyBitAt(buf, j, bits[j])
    ensures WidthBits(buf, rawlen, 2 + 2 * i, 600, 1200, 600, data) ==
            Some(Reading(rawlen, ShiftedIn(data, bits[i..], WORD32)))
    decreases |bits| - i
  {
    hide MatchMark, MatchSpace;
    if i < |bits| {
      assert SonyBitAt(buf, i, bits[i]);
      assert bits[i..][1..] == bits[i + 1..];
      SonyBitsDecoded(buf, rawlen, bits, i + 1, (data * 2 + Bit(bits[i])) % WORD32);
    }
  }

  lemma SonyRead(buf: seq<nat>, bits: seq<bool>, lag: nat -> nat, counts: seq<nat>)
    requires UsualLag(lag) && |bits| <= 32
    requires InBuffer(buf, counts) && Recording(UpToLastMark(SonyWidths(bits)), lag, counts)
    ensures |buf| == RAWBUF && |counts| == 2 * |bits| + 1 && Entry(buf, 1, 2400, lag)
    ensures WidthBits(buf, |counts| + 1, 2, 600, 1200, 600, 0) == Some(Reading(|counts| + 1, ShiftedIn(0, bits, WORD32)))
  {
    hide PairWidths, Recording, InBuffer, MatchMark, MatchSpace, SonyWidths, SonyBitAt, WidthBits, Entry, UpToLastMark, ShiftedIn;
    SonyCounts(bits, lag, counts);
    BufferLength(buf, counts);
    SonyHeaderSeen(buf, bits, lag, counts);
    forall j | 0 <= j < |bits| ensures SonyBitAt(buf, j, bits[j]) {
      SonyBitSeen(buf, bits, lag, counts, j);
    }
    SonyBitsDecoded(buf, |counts| + 1, bits, 0, 0);
    assert bits[0..] == bits;
  }

  lemma SonyHeaderSeen(buf: seq<nat>, bits: seq<bool>, lag: nat -> nat, counts: seq<nat>)
    requires InBuffer(buf, counts) && Recording(UpToLastMark(SonyWidths(bits)), lag, counts)
    ensures |buf| == RAWBUF && Entry(buf, 1, 2400, lag)
  {
    hide Recording, InBuffer, SonyWidths;
    BufferLength(buf, counts);
    SonyAudible(bits);
    SonyWidthAt(bits, 0);
    EntrySeen(buf, UpToLastMark(SonyWidths(bits)), lag, counts, 1);
  }

  lemma SonyCounts(bits: seq<bool>, lag: nat -> nat, counts: seq<nat>)
    requires Recording(UpToLastMark(SonyWidths(bits)), lag, counts)
    ensures |counts| == 2 * |bits| + 1
  {
    SonyAudible(bits);
  }
}
