/** Repeat codes through the air: what is sent while a button is held. */
module IrRepeats {
  import opened Arithmetic
  import opened Options
  import opened IrSignal
  import opened IrSampler
  import opened IrDecoders
  import opened IrSenders
  import opened IrCapture
  import opened IrDistance
  import opened IrDispatch

  // ---- JVC: the frame again, without its header ----

  function BareWidths(t: Timing, bits: seq<bool>): seq<nat> {
    PairWidths([], bits, OnePair(t), ZeroPair(t)) + [t.bitMark]
  }

  lemma BareFrameWidths(bits: seq<bool>)
    ensures Widths(JvcFrame(bits, true)) == BareWidths(JvcTiming, bits) && |BareWidths(JvcTiming, bits)| == 2 * |bits| + 1
  {
    assert Widths([]) == [];
    hide Widths, DistanceSegments, PairWidths;
    var before := DistanceSegments(JvcTiming, bits);
    DistancePairs([], JvcTiming, bits);
    assert [] + before == before;
    assert JvcFrame(bits, true) == before + [Mark(JvcTiming.bitMark)] + [Space(0)];
    WidthsSnoc(before, Mark(JvcTiming.bitMark));
    WidthsSnoc(before + [Mark(JvcTiming.bitMark)], Space(0));
  }

  lemma BareWidthAt(bits: seq<bool>, i: nat)
    requires i <= 2 * |bits|
    ensures |BareWidths(JvcTiming, bits)| == 2 * |bits| + 1
    ensures BareWidths(JvcTiming, bits)[i] ==
            if i % 2 == 0 then JvcTiming.bitMark else if bits[i / 2] then JvcTiming.oneSpace else JvcTiming.zeroSpace
  {
    hide PairWidths;
    if i < 2 * |bits| {
      PairWidthsAt([], bits, OnePair(JvcTiming), ZeroPair(JvcTiming), i / 2);
      assert i == 2 * (i / 2) || i == 2 * (i / 2) + 1;
    }
  }

  lemma BareAudible(bits: seq<bool>)
    ensures var ws := BareWidths(JvcTiming, bits); Audible(ws) && UpToLastMark(ws) == ws
  {
    hide BareWidths;
    var ws := BareWidths(JvcTiming, bits);
    BareWidthAt(bits, 0);
    forall i | 0 <= i < |ws| ensures 200 <= ws[i] <= 5000 {
      BareWidthAt(bits, i);
    }
  }

  /** The first space is no interval of RC5, or two of them. */
  lemma NotRc5Space(buf: seq<nat>, rawlen: nat)
    requires |buf| == RAWBUF && 13 <= rawlen <= RAWBUF && (buf[2] < 11 || 26 <= buf[2] <= 37)
    ensures Rc5Result(buf, rawlen) == None
  {
    assert Avail(buf[2], false, RC5_T1) in {0, 2};
    hide RcBits, Expect, Avail;
    ExpectThree(buf, rawlen, Position(1, 0), RC5_T1, true, false, true);
  }

  lemma JvcRepeatDispatch(buf: seq<nat>, gap: nat)
    requires |buf| == RAWBUF && buf[0] == gap && 12 < buf[1] < 16 && (buf[2] < 11 || 26 <= buf[2] <= 37)
    requires MatchMark(buf[1], JvcTiming.bitMark) && MatchMark(buf[33], JvcTiming.bitMark)
    ensures DecodeResult(buf, 34) == if gap >= 800 then Some(Results(JVC, 0, REPEAT, 0)) else TooSoon
  {
    hide MatchMark, NecResult, SonyResult, SanyoResult, MitsubishiResult, Rc5Result, Rc6Result, PanasonicResult,
         LgResult, SamsungResult;
    NotNec(buf, 34);
    if gap >= 500 {
      NotSony(buf, 34);
    }
    if gap < 800 {
      ShortGap(buf, 34);
    } else {
      NotSanyo(buf, 34);
      NotMitsubishi(buf, 34);
      NotRc5Space(buf, 34);
      NotRc6(buf, 34);
      NotPanasonic(buf);
      NotLg(buf, 34);
    }
  }

  /** What the decoders look at of the recorded repeat. */
  lemma JvcRepeatSeen(buf: seq<nat>, bits: seq<bool>, lag: nat -> nat, counts: seq<nat>)
    requires UsualLag(lag) && |bits| == 16
    requires InBuffer(buf, counts) && Recording(BareWidths(JvcTiming, bits), lag, counts)
    ensures |buf| == RAWBUF && 12 < buf[1] < 16 && (buf[2] < 11 || 26 <= buf[2] <= 37)
    ensures MatchMark(buf[1], JvcTiming.bitMark) && MatchMark(buf[33], JvcTiming.bitMark)
  {
    hide Recording, InBuffer, BareWidths, MatchMark;
    BufferLength(buf, counts);
    BareWidthAt(bits, 0);
    BareWidthAt(bits, 1);
    BareWidthAt(bits, 32);
    EntrySeen(buf, BareWidths(JvcTiming, bits), lag, counts, 1);
    EntrySeen(buf, BareWidths(JvcTiming, bits), lag, counts, 2);
    EntrySeen(buf, BareWidths(JvcTiming, bits), lag, counts, 33);
    MarkTicks(buf, 600, lag);
    SpaceTicks(buf, if bits[0] then 1600 else 550, lag);
    MarkMatches(600, lag(0), buf[1]);
    MarkMatches(600, lag(32), buf[33]);
  }

  /** The repeat of any frame comes back as a repeat: it does not carry its bits. */
  lemma JvcRepeatRoundTrip(s: Sampler, bits: seq<bool>, lag: nat -> nat, phase: nat, silence: nat)
    requires Audience(s, lag, phase, silence) && |bits| == 16
    ensures var s' := Heard(s, JvcFrame(bits, true), lag, phase, silence);
            && s'.rcvstate.Stop?
            && DecodedFrom(s') == if GapOf(s) >= 800 then Some(Results(JVC, 0, REPEAT, 0)) else TooSoon
  {
    hide Heard, JvcFrame, DecodeResult, Widths, InBuffer, Recording, Audible, UpToLastMark, BareWidths, MatchMark;
    BareFrameWidths(bits);
    BareAudible(bits);
    var counts := FrameHeard(s, JvcFrame(bits, true), lag, phase, silence);
    var buf := Heard(s, JvcFrame(bits, true), lag, phase, silence).rawbuf;
    CountsOf(BareWidths(JvcTiming, bits), lag, counts);
    JvcRepeatSeen(buf, bits, lag, counts);
    JvcRepeatDispatch(buf, GapOf(s));
  }

  // ---- NEC and Samsung: a header mark, a short space, a bit mark ----

  function RepeatCode(t: Timing): seq<Segment> {
    [Mark(t.hdrMark), Space(2250), Mark(t.bitMark)]
  }

  lemma RepeatWidths(t: Timing)
    requires 200 <= t.hdrMark <= 20000 && 200 <= t.bitMark <= 20000
    ensures var ws := Widths(RepeatCode(t)); ws == [t.hdrMark, 2250, t.bitMark] && Audible(ws) && UpToLastMark(ws) == ws
  {
    hide Widths;
    HeaderWidths(t.hdrMark, 2250);
    assert RepeatCode(t) == [Mark(t.hdrMark), Space(2250)] + [Mark(t.bitMark)];
    WidthsSnoc([Mark(t.hdrMark), Space(2250)], Mark(t.bitMark));
  }

  lemma RepeatSeen(buf: seq<nat>, t: Timing, lag: nat -> nat, counts: seq<nat>)
    requires UsualLag(lag) && t.hdrMark >= 100 && t.bitMark >= 100
    requires InBuffer(buf, counts) && Recording([t.hdrMark, 2250, t.bitMark], lag, counts)
    ensures |buf| == RAWBUF && |counts| == 3 && MatchMark(buf[1], t.hdrMark) && IsRepeat(buf, 4, t)
    ensures t.hdrMark < USECPERTICK * buf[1] < t.hdrMark + 200
  {
    hide InBuffer, MatchMark, MatchSpace;
    BufferLength(buf, counts);
    var ws := [t.hdrMark, 2250, t.bitMark];
    EntrySeen(buf, ws, lag, counts, 1);
    EntrySeen(buf, ws, lag, counts, 2);
    EntrySeen(buf, ws, lag, counts, 3);
    MarkTicks(buf, t.hdrMark, lag);
    MarkMatches(t.hdrMark, lag(0), buf[1]);
    SpaceMatches(2250, lag(1), buf[2]);
    MarkMatches(t.bitMark, lag(2), buf[3]);
  }

  /** Four entries are too few for anything else: a repeat of NEC's or Samsung's is known as such after any gap. */
  lemma RepeatRoundTrip(s: Sampler, t: Timing, lag: nat -> nat, phase: nat, silence: nat)
    requires Audience(s, lag, phase, silence) && (t == NecTiming || t == SamsungTiming)
    ensures var s' := Heard(s, RepeatCode(t), lag, phase, silence);
            && s'.rcvstate.Stop?
            && DecodedFrom(s') == Some(Results(if t == NecTiming then NEC else SAMSUNG, 0, REPEAT, 0))
  {
    hide Heard, RepeatCode, DecodeResult, Widths, InBuffer, Recording, Audible, UpToLastMark, MatchMark, IsRepeat;
    RepeatWidths(t);
    var counts := FrameHeard(s, RepeatCode(t), lag, phase, silence);
    var buf := Heard(s, RepeatCode(t), lag, phase, silence).rawbuf;
    RepeatSeen(buf, t, lag, counts);
    RepeatDispatch(buf, t);
  }

  lemma RepeatDispatch(buf: seq<nat>, t: Timing)
    requires |buf| == RAWBUF && (t == NecTiming || t == SamsungTiming)
    requires MatchMark(buf[1], t.hdrMark) && IsRepeat(buf, 4, t) && t.hdrMark < USECPERTICK * buf[1] < t.hdrMark + 200
    ensures DecodeResult(buf, 4) == Some(Results(if t == NecTiming then NEC else SAMSUNG, 0, REPEAT, 0))
  {
    if t == NecTiming {
      NecRepeatFirst(buf);
    } else {
      hide NecResult, SonyResult, SanyoResult, MitsubishiResult, Rc5Result, Rc6Result, PanasonicResult, LgResult,
           JvcResult, IsRepeat, MatchMark;
      NoNecRepeat(buf);
      NotSony(buf, 4);
      NotSanyo(buf, 4);
      NotMitsubishi(buf, 4);
      NotRc5(buf, 4);
      NotRc6(buf, 4);
      NotPanasonic(buf);
      NotLg(buf, 4);
      NoJvc(buf);
    }
  }

  lemma NecRepeatFirst(buf: seq<nat>)
    requires |buf| == RAWBUF && MatchMark(buf[1], NecTiming.hdrMark) && IsRepeat(buf, 4, NecTiming)
    ensures DecodeResult(buf, 4) == Some(Results(NEC, 0, REPEAT, 0))
  {
    hide MatchMark, IsRepeat, SonyResult, SanyoResult, MitsubishiResult, Rc5Result, Rc6Result, PanasonicResult, LgResult,
         JvcResult, SamsungResult;
  }

  lemma NoNecRepeat(buf: seq<nat>)
    requires |buf| == RAWBUF && buf[1] < 136
    ensures NecResult(buf, 4) == None
  {
    hide IsRepeat;
  }

  lemma NoJvc(buf: seq<nat>)
    requires |buf| == RAWBUF
    ensures JvcResult(buf, 4) == None
  {
  }
}
