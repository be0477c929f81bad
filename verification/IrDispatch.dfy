/** End to end: what is sent is received, by the right decoder of the ten, and exactly when the gap before it is long
    enough for the decoders that look at it. */
module IrDispatch {
  import opened Arithmetic
  import opened Options
  import opened IrSignal
  import opened IrSampler
  import opened IrDecoders
  import opened IrSenders
  import opened IrCapture
  import opened IrWords
  import opened IrDistance
  import opened IrManchester
  import opened IrRc

  /** The gap, in ticks, that the sampler will record if a mark comes at the next tick. */
  function GapOf(s: Sampler): nat {
    (s.timer + 1) % WORD16
  }

  /** A frame sent to an idle receiver: the sensor lag, the phase of the ticks and the silence afterwards are arbitrary
      within what the tolerances allow. */
  ghost predicate Audience(s: Sampler, lag: nat -> nat, phase: nat, silence: nat) {
    && Valid(s) && s.rcvstate.Idle? && GapOf(s) >= GAP_TICKS
    && UsualLag(lag) && phase < USECPERTICK && silence > GAP_TICKS + 1
  }

  function Heard(s: Sampler, frame: seq<Segment>, lag: nat -> nat, phase: nat, silence: nat): (s': Sampler)
    requires Valid(s)
    ensures Valid(s')
  {
    Run(s, Air(frame, lag, phase, silence))
  }

  function DecodedFrom(s: Sampler): Option<Results>
    requires Valid(s)
  {
    DecodeResult(s.rawbuf, s.rawlen)
  }

  /** What a decoder that is too suspicious of short gaps makes of anything that is long enough. */
  const TooSoon := Some(Results(SANYO, 0, REPEAT, 0))

  /** A frame that is well spaced is recorded in full. */
  lemma FrameHeard(s: Sampler, frame: seq<Segment>, lag: nat -> nat, phase: nat, silence: nat) returns (counts: seq<nat>)
    requires Audience(s, lag, phase, silence)
    requires Audible(Widths(frame)) && |Widths(frame)| < RAWBUF
    ensures var s' := Heard(s, frame, lag, phase, silence);
            && s'.rcvstate.Stop? && s'.rawlen == |counts| + 1
            && InBuffer(s'.rawbuf, counts) && s'.rawbuf[0] == GapOf(s)
    ensures Recording(UpToLastMark(Widths(frame)), lag, counts)
  {
    hide Widths, Air, Run, Recording, Audible, UpToLastMark;
    counts := FrameIsRecorded(s, frame, lag, phase, silence);
  }

  /** The gap is the time since the last mark in 16 bits of ticks, so a silence of more than 65536 ticks, 3.3 seconds, may
      look like one of 100 to 799, which the decoders for Sony and Sanyo suspect. */
  lemma LongSilence(s: Sampler, silence: nat)
    requires Valid(s) && s.rcvstate.Idle?
    ensures var s' := Run(s, Block(false, silence));
            s'.rcvstate.Idle? && GapOf(s') == (s.timer + silence + 1) % WORD16
    ensures WORD16 + 100 <= s.timer + silence + 1 < WORD16 + 800 ==> 100 <= GapOf(Run(s, Block(false, silence))) < 800
  {
    hide Run;
    IdleInSilence(s, silence);
    ElapsedTicks(s, Block(false, silence));
    NextTick(s.timer + silence);
  }

  lemma {:induction false} IdleInSilence(s: Sampler, silence: nat)
    requires Valid(s) && s.rcvstate.Idle?
    ensures Run(s, Block(false, silence)).rcvstate.Idle?
    decreases silence
  {
    if silence > 0 {
      IdleInSilence(s, silence - 1);
      assert Block(false, silence)[..silence - 1] == Block(false, silence - 1);
    }
  }

  // ---- how each decoder rejects what is not its own ----

  lemma NotNec(buf: seq<nat>, rawlen: nat)
    requires |buf| == RAWBUF && (buf[1] < 136 || 4 < rawlen < 68)
    ensures NecResult(buf, rawlen) == None
  {
    hide DistanceBits;
  }

  lemma NotSony(buf: seq<nat>, rawlen: nat)
    requires |buf| == RAWBUF && rawlen <= RAWBUF
    requires rawlen < 26 || (buf[0] >= 500 && (buf[1] < 37 || 63 < buf[1]))
    ensures SonyResult(buf, rawlen) == None
  {
    hide WidthBits;
  }

  /** The header mark fits, but the space after it is too long. */
  lemma NotSonySpace(buf: seq<nat>, rawlen: nat)
    requires |buf| == RAWBUF && rawlen <= RAWBUF
    requires rawlen < 26 || (buf[0] >= 500 && 13 < buf[2])
    ensures SonyResult(buf, rawlen) == None
  {
    if rawlen >= 26 {
      assert !MatchSpace(buf[2], 600);
      assert WidthBits(buf, rawlen, 2, 600, 1200, 600, 0) == Some(Reading(2, 0));
    }
  }

  lemma NotSanyo(buf: seq<nat>, rawlen: nat)
    requires |buf| == RAWBUF && rawlen <= RAWBUF
    requires rawlen < 26 || (buf[0] >= 800 && (buf[1] < 54 || 91 < buf[1] || buf[2] < 54 || 91 < buf[2]))
    ensures SanyoResult(buf, rawlen) == None
  {
    hide WidthBits;
  }

  lemma NotMitsubishi(buf: seq<nat>, rawlen: nat)
    requires |buf| == RAWBUF && rawlen <= RAWBUF && (rawlen < 34 || 12 < buf[1])
    ensures MitsubishiResult(buf, rawlen) == None
  {
    hide MarkFirstBits;
  }

  /** A first mark that long is three intervals or no number of them. */
  lemma NotRc5(buf: seq<nat>, rawlen: nat)
    requires |buf| == RAWBUF && rawlen <= RAWBUF && (rawlen < 13 || 48 <= buf[1])
    ensures Rc5Result(buf, rawlen) == None
  {
    hide RcBits, Expect;
    if rawlen >= 13 {
      ExpectThree(buf, rawlen, Position(1, 0), RC5_T1, true, false, true);
      assert Avail(buf[1], true, RC5_T1) in {0, 3};
    }
  }

  lemma NotRc6(buf: seq<nat>, rawlen: nat)
    requires |buf| == RAWBUF && rawlen <= RAWBUF && (buf[1] < 41 || 70 < buf[1])
    ensures Rc6Result(buf, rawlen) == None
  {
    hide RcBits, Expect;
  }

  lemma NotPanasonic(buf: seq<nat>)
    requires |buf| == RAWBUF && (buf[1] < 54 || 91 < buf[1])
    ensures PanasonicResult(buf) == None
  {
    hide DistanceBits;
  }

  lemma NotLg(buf: seq<nat>, rawlen: nat)
    requires |buf| == RAWBUF && (rawlen < 57 || buf[1] < 121)
    ensures LgResult(buf, rawlen) == None
  {
    hide DistanceBits;
  }

  lemma NotJvc(buf: seq<nat>, rawlen: nat)
    requires |buf| == RAWBUF && rawlen > 34 && buf[1] < 121
    ensures JvcResult(buf, rawlen) == None
  {
    hide DistanceBits;
  }

  /** After a short gap, anything long enough is taken for a repeat of another protocol. */
  lemma ShortGap(buf: seq<nat>, rawlen: nat)
    requires |buf| == RAWBUF && 26 <= rawlen <= RAWBUF && NecResult(buf, rawlen) == None
    requires buf[0] < 500 || (buf[0] < 800 && SonyResult(buf, rawlen) == None)
    ensures DecodeResult(buf, rawlen) == TooSoon
  {
    hide NecResult, WidthBits;
  }

  /** A mark that was sent for `w` microseconds takes about as many ticks. */
  lemma MarkTicks(buf: seq<nat>, w: nat, lag: nat -> nat)
    requires |buf| == RAWBUF && Entry(buf, 1, w, lag) && UsualLag(lag)
    ensures w < USECPERTICK * buf[1] < w + 200
  {
  }

  lemma SpaceTicks(buf: seq<nat>, w: nat, lag: nat -> nat)
    requires |buf| == RAWBUF && Entry(buf, 2, w, lag) && UsualLag(lag)
    ensures w - 200 < USECPERTICK * buf[2] < w
  {
  }

  // ---- NEC, Samsung, JVC, Panasonic ----

  lemma DistanceHeard(s: Sampler, t: Timing, bits: seq<bool>, lag: nat -> nat, phase: nat, silence: nat)
    requires Audience(s, lag, phase, silence) && Separable(t) && |bits| <= 48
    ensures var s' := Heard(s, DistanceFrame(t, bits), lag, phase, silence);
            && s'.rcvstate.Stop? && s'.rawlen == 2 * |bits| + 4
            && DistanceReadFrom(s'.rawbuf, t, bits, GapOf(s))
  {
    hide Widths, Recording, DistanceFrame, Separable, Heard, InBuffer, DistanceWidths;
    DistanceFrameWidths(t, bits);
    var counts := FrameHeard(s, DistanceFrame(t, bits), lag, phase, silence);
    var s' := Heard(s, DistanceFrame(t, bits), lag, phase, silence);
    CountsOf(DistanceWidths(t, bits), lag, counts);
    TicksRead(s'.rawbuf, t, bits, lag, counts, GapOf(s));
  }

  lemma CountsOf(ws: seq<nat>, lag: nat -> nat, counts: seq<nat>)
    requires Recording(ws, lag, counts)
    ensures |counts| == |ws|
  {
  }

  lemma TicksRead(buf: seq<nat>, t: Timing, bits: seq<bool>, lag: nat -> nat, counts: seq<nat>, gap: nat)
    requires UsualLag(lag) && Separable(t) && |bits| <= 48
    requires InBuffer(buf, counts) && Recording(DistanceWidths(t, bits), lag, counts)
    requires |buf| == RAWBUF && buf[0] == gap
    ensures DistanceReadFrom(buf, t, bits, gap)
  {
    hide InBuffer, Recording, DistanceWidths, DistanceBits, MatchMark, MatchSpace, ShiftedIn, Separable, Entry,
         StopMark;
    assert Proper(t) by { SeparableIsProper(t); }
    DistanceRead(buf, t, bits, lag, counts, WORD32);
    DistanceRead(buf, t, bits, lag, counts, WORD64);
    MarkTicks(buf, t.hdrMark, lag);
    SpaceTicks(buf, t.hdrSpace, lag);
  }

  lemma SeparableIsProper(t: Timing)
    requires Separable(t)
    ensures Proper(t)
  {
  }

  /** A buffer from which the decoder for `t` reads `bits`. */
  predicate DistanceReadFrom(buf: seq<nat>, t: Timing, bits: seq<bool>, gap: nat) {
    && |buf| == RAWBUF && buf[0] == gap && Proper(t) && 4 + 2 * |bits| <= RAWBUF
    && t.hdrMark < USECPERTICK * buf[1] < t.hdrMark + 200
    && t.hdrSpace - 200 < USECPERTICK * buf[2] < t.hdrSpace
    && MatchMark(buf[1], t.hdrMark) && MatchSpace(buf[2], t.hdrSpace)
    && DistanceBits(buf, 3, |bits|, t, 0, WORD32) == Some(ShiftedIn(0, bits, WORD32))
    && DistanceBits(buf, 3, |bits|, t, 0, WORD64) == Some(ShiftedIn(0, bits, WORD64))
    && StopMark(buf, |bits|, t)
  }

  /** NEC is the first decoder tried: nothing comes in its way. */
  lemma NecRoundTrip(s: Sampler, data: nat, lag: nat -> nat, phase: nat, silence: nat)
    requires Audience(s, lag, phase, silence) && data < WORD32
    ensures var s' := Heard(s, DistanceFrame(NecTiming, TopBits(data, 32)), lag, phase, silence);
            s'.rcvstate.Stop? && DecodedFrom(s') == Some(Results(NEC, 32, data, 0))
  {
    hide Heard, DistanceFrame, TopBits, DistanceBits, MatchMark, MatchSpace, ShiftedIn, SonyResult, SanyoResult,
         MitsubishiResult, Rc5Result, Rc6Result, PanasonicResult, LgResult, JvcResult, SamsungResult;
    var bits := TopBits(data, 32);
    WordReceived(data);
    DistanceHeard(s, NecTiming, bits, lag, phase, silence);
  }

  lemma SamsungDispatch(buf: seq<nat>, bits: seq<bool>, gap: nat)
    requires DistanceReadFrom(buf, SamsungTiming, bits, gap) && |bits| == 32
    ensures DecodeResult(buf, 68) ==
            if gap >= 800 then Some(Results(SAMSUNG, 32, ShiftedIn(0, bits, WORD32), 0)) else TooSoon
  {
    hide DistanceBits, MatchMark, MatchSpace, ShiftedIn, NecResult, SonyResult, SanyoResult, MitsubishiResult,
         Rc5Result, Rc6Result, PanasonicResult, LgResult, JvcResult;
    NotNec(buf, 68);
    if gap >= 500 {
      NotSony(buf, 68);
    }
    if gap < 800 {
      ShortGap(buf, 68);
    } else {
      NotSanyo(buf, 68);
      NotMitsubishi(buf, 68);
      NotRc5(buf, 68);
      NotRc6(buf, 68);
      NotPanasonic(buf);
      NotLg(buf, 68);
      NotJvc(buf, 68);
    }
  }

  lemma SamsungRoundTrip(s: Sampler, data: nat, lag: nat -> nat, phase: nat, silence: nat)
    requires Audience(s, lag, phase, silence) && data < WORD32
    ensures var s' := Heard(s, DistanceFrame(SamsungTiming, TopBits(data, 32)), lag, phase, silence);
            && s'.rcvstate.Stop?
            && DecodedFrom(s') == if GapOf(s) >= 800 then Some(Results(SAMSUNG, 32, data, 0)) else TooSoon
  {
    hide Heard, DistanceFrame, TopBits, DistanceReadFrom, DecodeResult, ShiftedIn;
    var bits := TopBits(data, 32);
    WordReceived(data);
    DistanceHeard(s, SamsungTiming, bits, lag, phase, silence);
    SamsungDispatch(Heard(s, DistanceFrame(SamsungTiming, bits), lag, phase, silence).rawbuf, bits, GapOf(s));
  }

  /** The header also fits NEC and LG, which want more entries. */
  lemma JvcDispatch(buf: seq<nat>, bits: seq<bool>, gap: nat)
    requires DistanceReadFrom(buf, JvcTiming, bits, gap) && |bits| == 16
    ensures DecodeResult(buf, 36) ==
            if gap >= 800 then Some(Results(JVC, 16, ShiftedIn(0, bits, WORD32), 0)) else TooSoon
  {
    hide DistanceBits, MatchMark, MatchSpace, ShiftedIn, StopMark, NecResult, SonyResult, SanyoResult,
         MitsubishiResult, Rc5Result, Rc6Result, PanasonicResult, LgResult, SamsungResult;
    NotNec(buf, 36);
    if gap >= 500 {
      NotSony(buf, 36);
    }
    if gap < 800 {
      ShortGap(buf, 36);
    } else {
      NotSanyo(buf, 36);
      NotMitsubishi(buf, 36);
      NotRc5(buf, 36);
      NotRc6(buf, 36);
      NotPanasonic(buf);
      NotLg(buf, 36);
    }
  }

  lemma JvcRoundTrip(s: Sampler, data: nat, lag: nat -> nat, phase: nat, silence: nat)
    requires Audience(s, lag, phase, silence)
    ensures var s' := Heard(s, DistanceFrame(JvcTiming, TopBits(ShiftLeft(data, 16), 16)), lag, phase, silence);
            && s'.rcvstate.Stop?
            && DecodedFrom(s') == if GapOf(s) >= 800 then Some(Results(JVC, 16, data % 0x1_0000, 0)) else TooSoon
  {
    hide Heard, DistanceFrame, TopBits, DistanceReadFrom, DecodeResult, ShiftedIn, ShiftLeft;
    var bits := TopBits(ShiftLeft(data, 16), 16);
    LowBitsReceived(data, 16);
    Pow2Powers();
    DistanceHeard(s, JvcTiming, bits, lag, phase, silence);
    JvcDispatch(Heard(s, DistanceFrame(JvcTiming, bits), lag, phase, silence).rawbuf, bits, GapOf(s));
  }

  /** The header also fits the mark of Sanyo's, and just not that of RC6. */
  lemma PanasonicDispatch(buf: seq<nat>, bits: seq<bool>, gap: nat)
    requires DistanceReadFrom(buf, PanasonicTiming, bits, gap) && |bits| == 48
    ensures var data := ShiftedIn(0, bits, WORD64);
            DecodeResult(buf, 100) ==
            if gap >= 800 then Some(Results(PANASONIC, 48, data % WORD32, data / WORD32 % WORD16)) else TooSoon
  {
    hide DistanceBits, ShiftedIn, StopMark, NecResult, SonyResult, SanyoResult, MitsubishiResult, Rc5Result,
         Rc6Result, LgResult, JvcResult, SamsungResult;
    NotNec(buf, 100);
    if gap >= 500 {
      NotSony(buf, 100);
    }
    if gap < 800 {
      ShortGap(buf, 100);
    } else {
      NotSanyo(buf, 100);
      NotMitsubishi(buf, 100);
      NotRc5(buf, 100);
      NotRc6(buf, 100);
    }
  }

  lemma PanasonicRoundTrip(s: Sampler, address: nat, data: nat, lag: nat -> nat, phase: nat, silence: nat)
    requires Audience(s, lag, phase, silence) && address < WORD16 && data < WORD32
    ensures var bits := TopBits(address * 0x1_0000, 16) + TopBits(data, 32);
            var s' := Heard(s, DistanceFrame(PanasonicTiming, bits), lag, phase, silence);
            && s'.rcvstate.Stop?
            && DecodedFrom(s') == if GapOf(s) >= 800 then Some(Results(PANASONIC, 48, data, address)) else TooSoon
  {
    hide Heard, DistanceFrame, TopBits, DistanceReadFrom, DecodeResult, ShiftedIn;
    var bits := TopBits(address * 0x1_0000, 16) + TopBits(data, 32);
    AddressAndWordReceived(address, data);
    QuotientIs(address * WORD32 + data, WORD32, address, data);
    DistanceHeard(s, PanasonicTiming, bits, lag, phase, silence);
    PanasonicDispatch(Heard(s, DistanceFrame(PanasonicTiming, bits), lag, phase, silence).rawbuf, bits, GapOf(s));
  }

  // ---- Sony ----

  lemma SonyDispatch(buf: seq<nat>, bits: seq<bool>, lag: nat -> nat, counts: seq<nat>)
    requires UsualLag(lag) && 12 <= |bits| <= 32
    requires InBuffer(buf, counts) && Recording(UpToLastMark(SonyWidths(bits)), lag, counts)
    ensures |buf| == RAWBUF && |counts| + 1 <= RAWBUF
    ensures DecodeResult(buf, |counts| + 1) ==
            if buf[0] >= 500 then Some(Results(SONY, |bits|, ShiftedIn(0, bits, WORD32), 0)) else TooSoon
  {
    hide InBuffer, Recording, SonyWidths, UpToLastMark, WidthBits, NecResult, SanyoResult, MitsubishiResult,
         Rc5Result, Rc6Result, PanasonicResult, LgResult, JvcResult, SamsungResult;
    BufferLength(buf, counts);
    SonyRead(buf, bits, lag, counts);
    MarkTicks(buf, 2400, lag);
    NotNec(buf, |counts| + 1);
    if buf[0] < 500 {
      ShortGap(buf, |counts| + 1);
    } else {
      MarkMatches(2400, lag(0), buf[1]);
    }
  }

  /** No other decoder labels anything as one of Sony's, nor does that one if there are less than 12 bits. */
  lemma SonyTooShort(buf: seq<nat>, rawlen: nat)
    requires |buf| == RAWBUF && rawlen < 26
    ensures DecodeResult(buf, rawlen).Some? ==> DecodeResult(buf, rawlen).value.kind != SONY
  {
    hide DistanceBits, WidthBits, MarkFirstBits, RcBits, Expect, MatchMark, MatchSpace;
  }

  lemma SonyRoundTrip(s: Sampler, data: nat, n: nat, lag: nat -> nat, phase: nat, silence: nat)
    requires Audience(s, lag, phase, silence) && 1 <= n <= 32
    ensures Pow2(n) > 0
    ensures var s' := Heard(s, SonyFrame(TopBits(ShiftLeft(data, 32 - n), n)), lag, phase, silence);
            && s'.rcvstate.Stop?
            && (n >= 12 ==>
                  DecodedFrom(s') == if GapOf(s) >= 500 then Some(Results(SONY, n, data % Pow2(n), 0)) else TooSoon)
            && (n < 12 ==> DecodedFrom(s').Some? ==> DecodedFrom(s').value.kind != SONY)
  {
    hide Heard, SonyFrame, SonyWidths, TopBits, DecodeResult, ShiftedIn, ShiftLeft, Widths, InBuffer, Recording,
         Audible, UpToLastMark, Pow2;
    var bits := TopBits(ShiftLeft(data, 32 - n), n);
    LowBitsReceived(data, n);
    SonyFrameWidths(bits);
    SonyAudible(bits);
    var counts := FrameHeard(s, SonyFrame(bits), lag, phase, silence);
    var buf := Heard(s, SonyFrame(bits), lag, phase, silence).rawbuf;
    BufferLength(buf, counts);
    SonyCounts(bits, lag, counts);
    if n >= 12 {
      SonyDispatch(buf, bits, lag, counts);
    } else {
      SonyTooShort(buf, |counts| + 1);
    }
  }

  // ---- RC5 ----

  lemma Rc5Dispatch(buf: seq<nat>, bits: seq<bool>, lag: nat -> nat, counts: seq<nat>)
    requires UsualLag(lag)
    requires InBuffer(buf, counts) && Recording(UpToLastMark(Widths(Rc5Frame(bits))), lag, counts)
    ensures |buf| == RAWBUF && |counts| + 1 <= RAWBUF
    ensures var rawlen := |counts| + 1;
            && (rawlen >= 26 && buf[0] < 800 ==> DecodeResult(buf, rawlen) == TooSoon)
            && (13 <= rawlen && (rawlen < 26 || buf[0] >= 800) ==>
                  DecodeResult(buf, rawlen) == Some(Results(RC5, |bits|, ShiftedIn(0, bits, WORD32), 0)))
            && (rawlen < 13 ==> DecodeResult(buf, rawlen).Some? ==> DecodeResult(buf, rawlen).value.kind != RC5)
  {
    hide InBuffer, Recording, Widths, UpToLastMark, Rc5Frame, NecResult, SonyResult, SanyoResult, MitsubishiResult,
         Rc5Result, Rc6Result, PanasonicResult, LgResult, JvcResult, SamsungResult;
    BufferLength(buf, counts);
    var rawlen := |counts| + 1;
    Rc5FirstMark(buf, bits, lag, counts);
    NotNec(buf, rawlen);
    if rawlen < 26 || buf[0] >= 500 {
      NotSony(buf, rawlen);
    }
    if rawlen >= 26 && buf[0] < 800 {
      ShortGap(buf, rawlen);
    } else {
      NotSanyo(buf, rawlen);
      NotMitsubishi(buf, rawlen);
      Rc5Read(buf, bits, lag, counts);
      if rawlen < 13 {
        NotRc5Kind(buf, rawlen);
      }
    }
  }

  lemma NotRc5Kind(buf: seq<nat>, rawlen: nat)
    requires |buf| == RAWBUF && rawlen <= RAWBUF && Rc5Result(buf, rawlen) == None
    ensures DecodeResult(buf, rawlen).Some? ==> DecodeResult(buf, rawlen).value.kind != RC5
  {
    hide DistanceBits, WidthBits, MarkFirstBits, RcBits, Expect, MatchMark, MatchSpace, Rc5Result;
  }

  /** The first mark of RC5 stands alone. */
  lemma Rc5FirstMark(buf: seq<nat>, bits: seq<bool>, lag: nat -> nat, counts: seq<nat>)
    requires UsualLag(lag)
    requires InBuffer(buf, counts) && Recording(UpToLastMark(Widths(Rc5Frame(bits))), lag, counts)
    ensures |buf| == RAWBUF && 17 < buf[1] < 22
  {
    hide InBuffer, Recording, Widths, Rc5Frame, UpToLastMark, Rc5Levels, Plays, RcLevel, Avail, Reads, Trim, Runs;
    BufferLength(buf, counts);
    Rc5FirstWidth(bits);
    Rc5Plays(buf, bits, lag, counts);
    EntrySeen(buf, UpToLastMark(Widths(Rc5Frame(bits))), lag, counts, 1);
    MarkTicks(buf, RC5_T1, lag);
  }

  lemma Rc5FirstWidth(bits: seq<bool>)
    ensures var ws := UpToLastMark(Widths(Rc5Frame(bits)));
            |ws| >= 1 && ws[0] == RC5_T1
  {
    var all := Rc5Levels(bits);
    assert all[0] && !all[1] && all[2];
    assert [] + Scaled(RC5_T1, Runs(all)) == Scaled(RC5_T1, Runs(all));
    hide Widths, Runs, Rc5Frame, Rc5Levels;
    Rc5Widths(bits);
    Rc5Runs(bits);
    FirstRun(all);
  }

  lemma {:induction false} FirstRun(levels: seq<bool>)
    requires |levels| >= 2 && levels[0] != levels[1]
    ensures |Runs(levels)| >= 2 && Runs(levels)[0] == 1
    decreases |levels|
  {
    var n := |levels| - 1;
    assert levels == levels[..n] + [levels[n]];
    RunsSnoc(levels[..n], levels[n]);
    if n == 1 {
      RunsOne(levels[0]);
      assert levels[..1] == [levels[0]];
    } else {
      hide Runs;
      FirstRun(levels[..n]);
    }
  }

  lemma Rc5Audible(bits: seq<bool>)
    requires |bits| <= 32
    ensures var ws := Widths(Rc5Frame(bits)); Audible(ws) && |ws| < RAWBUF
  {
    hide Widths, Runs, Rc5Frame, Rc5Levels;
    Rc5Widths(bits);
    Rc5Runs(bits);
    RepeatsBound(bits);
    var rs := Runs(Rc5Levels(bits));
    forall i | 0 <= i < |rs| ensures 200 <= Scaled(RC5_T1, rs)[i] <= 5000 {
      assert 1 <= rs[i] <= 2;
    }
  }

  /** RC5 comes back exactly if there are enough entries, and the gap was long or the entries too few to be suspected.
      How many there are depends on the word alone: four bits never give enough, ten always do. */
  lemma Rc5RoundTrip(s: Sampler, data: nat, n: nat, lag: nat -> nat, phase: nat, silence: nat)
    requires Audience(s, lag, phase, silence) && 1 <= n <= 32
    ensures Pow2(n) > 0
    ensures var bits := TopBits(ShiftLeft(data, 32 - n), n);
            var s', entries := Heard(s, Rc5Frame(bits), lag, phase, silence), Rc5Entries(bits);
            && s'.rcvstate.Stop? && s'.rawlen == entries
            && n + 3 <= entries <= 2 * n + 4
            && (DecodedFrom(s') == Some(Results(RC5, n, data % Pow2(n), 0)) <==>
                13 <= entries && (entries < 26 || GapOf(s) >= 800))
            && (entries >= 26 && GapOf(s) < 800 ==> DecodedFrom(s') == TooSoon)
            && (entries < 13 ==> DecodedFrom(s').Some? ==> DecodedFrom(s').value.kind != RC5)
  {
    hide Heard, Rc5Frame, TopBits, DecodeResult, ShiftedIn, ShiftLeft, Widths, InBuffer, Recording, Audible,
         UpToLastMark, Pow2, Runs, Trim, Plays, Rc5Levels, Rc5Entries;
    var bits := TopBits(ShiftLeft(data, 32 - n), n);
    LowBitsReceived(data, n);
    Rc5Audible(bits);
    var counts := FrameHeard(s, Rc5Frame(bits), lag, phase, silence);
    var buf := Heard(s, Rc5Frame(bits), lag, phase, silence).rawbuf;
    Rc5Plays(buf, bits, lag, counts);
    Rc5EntriesBounds(bits);
    Rc5Dispatch(buf, bits, lag, counts);
  }

  // ---- RC6 ----

  /** The header fits the marks of both Sony's and Sanyo's, but not the spaces after them. */
  lemma Rc6Dispatch(buf: seq<nat>, bits: seq<bool>, lag: nat -> nat, counts: seq<nat>)
    requires UsualLag(lag)
    requires InBuffer(buf, counts) && Recording(UpToLastMark(Widths(Rc6Frame(bits))), lag, counts)
    ensures |buf| == RAWBUF && |counts| + 1 <= RAWBUF
    ensures var rawlen := |counts| + 1;
            DecodeResult(buf, rawlen) ==
            if rawlen < 26 || buf[0] >= 800 then Some(Results(RC6, |bits|, ShiftedIn(0, bits, WORD32), 0)) else TooSoon
  {
    hide InBuffer, Recording, Widths, UpToLastMark, Rc6Frame, NecResult, SonyResult, SanyoResult, MitsubishiResult,
         Rc5Result, Rc6Result, PanasonicResult, LgResult, JvcResult, SamsungResult;
    BufferLength(buf, counts);
    var rawlen := |counts| + 1;
    Rc6HeaderRead(buf, bits, lag, counts);
    MarkTicks(buf, 2666, lag);
    SpaceTicks(buf, 889, lag);
    NotNec(buf, rawlen);
    if rawlen < 26 || buf[0] >= 500 {
      NotSonySpace(buf, rawlen);
    }
    if rawlen >= 26 && buf[0] < 800 {
      ShortGap(buf, rawlen);
    } else {
      NotSanyo(buf, rawlen);
      NotMitsubishi(buf, rawlen);
      NotRc5(buf, rawlen);
      Rc6Read(buf, bits, lag, counts);
    }
  }

  lemma Rc6Audible(bits: seq<bool>)
    requires |bits| <= 32
    ensures var ws := Widths(Rc6Frame(bits)); Audible(ws) && |ws| < RAWBUF
  {
    hide Widths, Runs, Rc6Frame, Rc6Levels;
    Rc6Widths(bits);
    Rc6Runs(bits);
    RepeatsBound(bits);
    var rs := Runs(Rc6Levels(bits));
    forall i | 0 <= i < |rs| ensures 200 <= Scaled(RC6_T1, rs)[i] <= 5000 {
      assert 1 <= rs[i] <= 3;
    }
  }

  lemma Rc6RoundTrip(s: Sampler, data: nat, n: nat, lag: nat -> nat, phase: nat, silence: nat)
    requires Audience(s, lag, phase, silence) && 1 <= n <= 32
    ensures Pow2(n) > 0
    ensures var bits := TopBits(ShiftLeft(data, 32 - n), n);
            var s', entries := Heard(s, Rc6Frame(bits), lag, phase, silence), Rc6Entries(bits);
            && s'.rcvstate.Stop? && s'.rawlen == entries
            && n + 4 <= entries <= 2 * n + 5
            && DecodedFrom(s') == if entries < 26 || GapOf(s) >= 800 then Some(Results(RC6, n, data % Pow2(n), 0)) else TooSoon
  {
    hide Heard, Rc6Frame, TopBits, DecodeResult, ShiftedIn, ShiftLeft, Widths, InBuffer, Recording, Audible,
         UpToLastMark, Pow2, Runs, Trim, Plays, Rc6Levels, Rc6Entries;
    var bits := TopBits(ShiftLeft(data, 32 - n), n);
    LowBitsReceived(data, n);
    Rc6Audible(bits);
    var counts := FrameHeard(s, Rc6Frame(bits), lag, phase, silence);
    var buf := Heard(s, Rc6Frame(bits), lag, phase, silence).rawbuf;
    Rc6Plays(buf, bits, lag, counts);
    Rc6EntriesBounds(bits);
    Rc6Dispatch(buf, bits, lag, counts);
  }
}
