/** The frames of the protocols written out, segment by segment, and what is received of one that has no sender here. */
module IrFrames {
  import opened Arithmetic
  import opened Options
  import opened IrSignal
  import opened IrSampler
  import opened IrDecoders
  import opened IrSenders
  import opened IrWords
  import opened IrDistance
  import opened IrDispatch
  import opened IrRepeats

  // ---- pulse distance ----

  /** A bit for each of the `n` binary digits of `data` from number `top` downwards: a mark, and a space that tells. */
  function DistanceWave(mark: nat, one: nat, zero: nat, data: nat, top: nat, n: nat): seq<Segment>
    requires n <= top + 1
  {
    seq(2 * n, i requires 0 <= i < 2 * n =>
      if i % 2 == 0 then Segment(true, mark) else Segment(false, if Digit(data, top - i / 2) then one else zero))
  }

  /** `bits` are the digits of `data` from number `top` downwards. */
  predicate DigitsFrom(bits: seq<bool>, data: nat, top: nat) {
    |bits| <= top + 1 && forall i | 0 <= i < |bits| :: bits[i] <==> Digit(data, top - i)
  }

  lemma {:induction false} SegmentsAreWave(t: Timing, bits: seq<bool>, data: nat, top: nat)
    requires DigitsFrom(bits, data, top)
    ensures DistanceSegments(t, bits) == DistanceWave(t.bitMark, t.oneSpace, t.zeroSpace, data, top, |bits|)
    decreases |bits|
  {
    hide Digit;
    if bits != [] {
      var n := |bits| - 1;
      SegmentsAreWave(t, bits[..n], data, top);
      var before, all := DistanceWave(t.bitMark, t.oneSpace, t.zeroSpace, data, top, n),
          DistanceWave(t.bitMark, t.oneSpace, t.zeroSpace, data, top, n + 1);
      assert all[..2 * n] == before;
      assert all == all[..2 * n] + [all[2 * n], all[2 * n + 1]];
      assert all[2 * n] == Mark(t.bitMark);
      assert all[2 * n + 1] == Space(if bits[n] then t.oneSpace else t.zeroSpace);
    }
  }

  lemma TopDigits(data: nat, n: nat)
    requires n <= 32
    ensures DigitsFrom(TopBits(data, n), data, 31)
  {
    hide Digit, TopBits;
    forall i | 0 <= i < n ensures TopBits(data, n)[i] <==> Digit(data, 31 - i) {
      TopBitsAreDigits(data, n, i);
    }
  }

  lemma LowDigits(data: nat, n: nat)
    requires 1 <= n <= 32
    ensures DigitsFrom(TopBits(ShiftLeft(data, 32 - n), n), data, n - 1)
  {
    hide Digit, TopBits, ShiftLeft;
    var bits := TopBits(ShiftLeft(data, 32 - n), n);
    forall i | 0 <= i < n ensures bits[i] <==> Digit(data, n - 1 - i) {
      LowBitsAreDigits(data, n, i);
    }
  }

  /** NEC sends the `nbits` highest of 32 bits, the highest first. */
  lemma NecFrameIs(data: nat, nbits: nat)
    requires nbits <= 32
    ensures DistanceFrame(NecTiming, TopBits(data, nbits)) ==
            [Segment(true, 9000), Segment(false, 4500)] + DistanceWave(560, 1600, 560, data, 31, nbits)
            + [Segment(true, 560), Segment(false, 0)]
  {
    hide TopBits, DistanceSegments, DistanceWave;
    TopDigits(data, nbits);
    SegmentsAreWave(NecTiming, TopBits(data, nbits), data, 31);
  }

  lemma SamsungFrameIs(data: nat, nbits: nat)
    requires nbits <= 32
    ensures DistanceFrame(SamsungTiming, TopBits(data, nbits)) ==
            [Segment(true, 5000), Segment(false, 5000)] + DistanceWave(560, 1600, 560, data, 31, nbits)
            + [Segment(true, 560), Segment(false, 0)]
  {
    hide TopBits, DistanceSegments, DistanceWave;
    TopDigits(data, nbits);
    SegmentsAreWave(SamsungTiming, TopBits(data, nbits), data, 31);
  }

  /** JVC sends the `nbits` lowest bits, the highest of them first. A repeat goes without the header. */
  lemma JvcFrameIs(data: nat, nbits: nat, repeat: bool)
    requires 1 <= nbits <= 32
    ensures JvcFrame(TopBits(ShiftLeft(data, 32 - nbits), nbits), repeat) ==
            (if repeat then [] else [Segment(true, 8000), Segment(false, 4000)])
            + DistanceWave(600, 1600, 550, data, nbits - 1, nbits) + [Segment(true, 600), Segment(false, 0)]
  {
    hide TopBits, DistanceSegments, DistanceWave, ShiftLeft;
    LowDigits(data, nbits);
    SegmentsAreWave(JvcTiming, TopBits(ShiftLeft(data, 32 - nbits), nbits), data, nbits - 1);
    var wave := DistanceWave(600, 1600, 550, data, nbits - 1, nbits);
    assert [] + wave == wave;
  }

  /** Panasonic sends one number of 48 bits: the address above the data. */
  lemma PanasonicFrameIs(address: nat, data: nat)
    requires address < 0x1_0000 && data < 0x1_0000_0000
    ensures DistanceFrame(PanasonicTiming, TopBits(address * 0x1_0000, 16) + TopBits(data, 32)) ==
            [Segment(true, 3502), Segment(false, 1750)]
            + DistanceWave(502, 1244, 400, address * 0x1_0000_0000 + data, 47, 48)
            + [Segment(true, 502), Segment(false, 0)]
  {
    hide TopBits, DistanceSegments, DistanceWave;
    PanasonicDigits(address, data);
    SegmentsAreWave(PanasonicTiming, TopBits(address * 0x1_0000, 16) + TopBits(data, 32), address * 0x1_0000_0000 + data, 47);
  }

  lemma PanasonicDigits(address: nat, data: nat)
    requires address < 0x1_0000 && data < 0x1_0000_0000
    ensures DigitsFrom(TopBits(address * 0x1_0000, 16) + TopBits(data, 32), address * 0x1_0000_0000 + data, 47)
  {
    Pow2Powers();
    var word := address * 0x1_0000_0000 + data;
    hide TopBits, Digit, Pow2;
    forall i | 0 <= i < 48
      ensures (TopBits(address * 0x1_0000, 16) + TopBits(data, 32))[i] <==> Digit(word, 47 - i)
    {
      if i < 16 {
        TopBitsAreDigits(address * 0x1_0000, 16, i);
        DigitShifted(address, 16, 15 - i);
        DigitOfSum(address, data, 15 - i);
      } else {
        TopBitsAreDigits(data, 32, i - 16);
        DigitOfRemainder(word, 32, 47 - i);
        QuotientIs(word, WORD32, address, data);
      }
    }
  }

  /** The digits above 32 are those of the upper part. */
  lemma DigitOfSum(upper: nat, lower: nat, k: nat)
    requires lower < WORD32
    ensures Digit(upper * WORD32 + lower, k + 32) <==> Digit(upper, k)
  {
    Pow2Powers();
    hide Digit, Pow2;
    QuotientIs(upper * WORD32 + lower, WORD32, upper, lower);
    DigitsAbove(upper * WORD32 + lower, 32, upper, k);
  }

  /** Dividing by 2^n takes `n` digits off. */
  lemma {:induction false} DigitsAbove(v: nat, n: nat, q: nat, k: nat)
    requires v / Pow2(n) == q
    ensures Digit(v, k + n) <==> Digit(q, k)
    decreases n
  {
    if n == 0 {
      OnePow2();
      hide Pow2, Digit;
      QuotientIs(v, 1, v, 0);
    } else {
      Pow2Step(n - 1);
      hide Pow2, Digit;
      DigitAbove(v, k + n - 1);
      HalvedQuotient(v, Pow2(n - 1));
      DigitsAbove(v / 2, n - 1, q, k);
    }
  }

  lemma RepeatCodesAre()
    ensures RepeatCode(NecTiming) == [Segment(true, 9000), Segment(false, 2250), Segment(true, 560)]
    ensures RepeatCode(SamsungTiming) == [Segment(true, 5000), Segment(false, 2250), Segment(true, 560)]
  {
  }

  // ---- pulse width ----

  /** Sony sends the `nbits` lowest bits, the highest of them first; the mark tells, and a space follows. */
  function SonyWave(data: nat, n: nat): seq<Segment> {
    seq(2 * n, i requires 0 <= i < 2 * n =>
      if i % 2 == 1 then Segment(false, 600) else Segment(true, if Digit(data, n - 1 - i / 2) then 1200 else 600))
  }

  lemma {:induction false} SonySegmentsAre(bits: seq<bool>, i: nat)
    requires i < |bits|
    ensures |SonySegments(bits)| == 2 * |bits|
    ensures SonySegments(bits)[2 * i] == Segment(true, if bits[i] then 1200 else 600)
    ensures SonySegments(bits)[2 * i + 1] == Segment(false, 600)
    decreases |bits|
  {
    var n := |bits| - 1;
    if n > 0 {
      SonySegmentsAre(bits[..n], if i < n then i else 0);
    }
  }

  lemma SonyFrameIs(data: nat, nbits: nat)
    requires 1 <= nbits <= 32
    ensures SonyFrame(TopBits(ShiftLeft(data, 32 - nbits), nbits)) ==
            [Segment(true, 2400), Segment(false, 600)] + SonyWave(data, nbits)
  {
    hide TopBits, SonySegments, ShiftLeft, Digit;
    var bits := TopBits(ShiftLeft(data, 32 - nbits), nbits);
    LowDigits(data, nbits);
    SonySegmentsAre(bits, 0);
    forall i | 0 <= i < 2 * nbits ensures SonySegments(bits)[i] == SonyWave(data, nbits)[i] {
      SonySegmentsAre(bits, i / 2);
      assert i == 2 * (i / 2) || i == 2 * (i / 2) + 1;
    }
    assert SonySegments(bits) == SonyWave(data, nbits);
  }

  // ---- Manchester ----

  /** RC5 sends a 1 as space and mark, a 0 as mark and space. */
  function Rc5Wave(data: nat, n: nat): seq<Segment> {
    seq(2 * n, i requires 0 <= i < 2 * n => Segment((i % 2 == 1) == Digit(data, n - 1 - i / 2), 889))
  }

  lemma {:induction false} Rc5SegmentsAre(bits: seq<bool>, i: nat)
    requires i < |bits|
    ensures |Rc5Segments(bits)| == 2 * |bits|
    ensures Rc5Segments(bits)[2 * i] == Segment(!bits[i], 889) && Rc5Segments(bits)[2 * i + 1] == Segment(bits[i], 889)
    decreases |bits|
  {
    var n := |bits| - 1;
    if n > 0 {
      Rc5SegmentsAre(bits[..n], if i < n then i else 0);
    }
  }

  lemma Rc5FrameIs(data: nat, nbits: nat)
    requires 1 <= nbits <= 32
    ensures Rc5Frame(TopBits(ShiftLeft(data, 32 - nbits), nbits)) ==
            [Segment(true, 889), Segment(false, 889), Segment(true, 889)] + Rc5Wave(data, nbits) + [Segment(false, 0)]
  {
    hide TopBits, Rc5Segments, ShiftLeft, Digit;
    var bits := TopBits(ShiftLeft(data, 32 - nbits), nbits);
    LowDigits(data, nbits);
    Rc5SegmentsAre(bits, 0);
    forall i | 0 <= i < 2 * nbits ensures Rc5Segments(bits)[i] == Rc5Wave(data, nbits)[i] {
      Rc5SegmentsAre(bits, i / 2);
      assert i == 2 * (i / 2) || i == 2 * (i / 2) + 1;
    }
    assert Rc5Segments(bits) == Rc5Wave(data, nbits);
  }

  /** RC6 sends a 1 as mark and space, a 0 as space and mark, and the fourth bit at half the speed. */
  function Rc6Wave(data: nat, n: nat): seq<Segment> {
    seq(2 * n, i requires 0 <= i < 2 * n =>
      Segment((i % 2 == 0) == Digit(data, n - 1 - i / 2), if i / 2 == 3 then 888 else 444))
  }

  lemma {:induction false} Rc6SegmentsAre(bits: seq<bool>, i: nat)
    requires i < |bits|
    ensures |Rc6Segments(bits)| == 2 * |bits|
    ensures Rc6Segments(bits)[2 * i] == Segment(bits[i], if i == 3 then 888 else 444)
    ensures Rc6Segments(bits)[2 * i + 1] == Segment(!bits[i], if i == 3 then 888 else 444)
    decreases |bits|
  {
    var n := |bits| - 1;
    if n > 0 {
      Rc6SegmentsAre(bits[..n], if i < n then i else 0);
    }
  }

  lemma Rc6FrameIs(data: nat, nbits: nat)
    requires 1 <= nbits <= 32
    ensures Rc6Frame(TopBits(ShiftLeft(data, 32 - nbits), nbits)) ==
            [Segment(true, 2666), Segment(false, 889), Segment(true, 444), Segment(false, 444)] + Rc6Wave(data, nbits)
            + [Segment(false, 0)]
  {
    hide TopBits, Rc6Segments, ShiftLeft, Digit;
    var bits := TopBits(ShiftLeft(data, 32 - nbits), nbits);
    LowDigits(data, nbits);
    Rc6SegmentsAre(bits, 0);
    forall i | 0 <= i < 2 * nbits ensures Rc6Segments(bits)[i] == Rc6Wave(data, nbits)[i] {
      Rc6SegmentsAre(bits, i / 2);
      assert i == 2 * (i / 2) || i == 2 * (i / 2) + 1;
    }
    assert Rc6Segments(bits) == Rc6Wave(data, nbits);
  }

  // ---- LG, which nothing here sends ----

  /** The digits of a number, from `top` downwards. */
  function DigitsOf(data: nat, top: nat): seq<bool> {
    seq(top + 1, i requires 0 <= i <= top => Digit(data, top - i))
  }

  lemma LgWord(data: nat)
    requires data < 0x1000_0000
    ensures ShiftedIn(0, DigitsOf(data, 27), WORD32) == data
  {
    var bits := DigitsOf(data, 27);
    Pow2Powers();
    TwentyEight();
    hide Pow2, Digit;
    forall k: nat | k < 32 ensures Digit(data, k) <==> (k < |bits| && bits[|bits| - 1 - k]) {
      if k >= 28 {
        Pow2Monotone(28, k);
        QuotientIs(data, Pow2(k), 0, data);
        NoDigit(data, k);
      }
    }
    SpellsTell(data, bits, 32);
  }

  lemma TwentyEight()
    ensures Pow2(28) == 0x1000_0000
  {
    Pow2Powers();
    assert Pow2(4) == 16;
    Pow2Add(8, 4);
    Pow2Add(16, 12);
  }

  lemma NoDigit(v: nat, k: nat)
    requires v / Pow2(k) == 0
    ensures !Digit(v, k)
  {
  }

  lemma LgDispatch(buf: seq<nat>, bits: seq<bool>, gap: nat)
    requires DistanceReadFrom(buf, Timing(8000, 4000, 600, 1600, 550), bits, gap) && |bits| == 28
    ensures DecodeResult(buf, 60) ==
            if gap >= 800 then Some(Results(LG, 28, ShiftedIn(0, bits, WORD32), 0)) else Some(Results(SANYO, 0, 0xffff_ffff, 0))
  {
    hide DistanceBits, MatchMark, MatchSpace, ShiftedIn, StopMark, NecResult, SonyResult, SanyoResult,
         MitsubishiResult, Rc5Result, Rc6Result, PanasonicResult, JvcResult, SamsungResult;
    NotNec(buf, 60);
    if gap >= 500 {
      NotSony(buf, 60);
    }
    if gap < 800 {
      ShortGap(buf, 60);
    } else {
      NotSanyo(buf, 60);
      NotMitsubishi(buf, 60);
      NotRc5(buf, 60);
      NotRc6(buf, 60);
      NotPanasonic(buf);
    }
  }

  /** An LG frame, written out: it comes back after a gap of 800 ticks or more, though the header is that of JVC and there
      are bits enough for that one too. */
  lemma LgReceived(s: Sampler, data: nat, lag: nat -> nat, phase: nat, silence: nat)
    requires Valid(s) && s.rcvstate.Idle? && (s.timer + 1) % 0x1_0000 >= 100
    requires (forall i :: 50 <= lag(i) <= 150) && phase < 50 && silence > 101
    requires data < 0x1000_0000
    ensures var frame := [Segment(true, 8000), Segment(false, 4000)] + DistanceWave(600, 1600, 550, data, 27, 28)
                         + [Segment(true, 600), Segment(false, 0)];
            var s' := Heard(s, frame, lag, phase, silence);
            && s'.rcvstate.Stop?
            && DecodedFrom(s') == if (s.timer + 1) % 0x1_0000 >= 800 then Some(Results(LG, 28, data, 0))
                                  else Some(Results(SANYO, 0, 0xffff_ffff, 0))
  {
    hide Heard, DistanceSegments, DistanceWave, DistanceReadFrom, DecodeResult, ShiftedIn, Digit;
    var t, bits := Timing(8000, 4000, 600, 1600, 550), DigitsOf(data, 27);
    SegmentsAreWave(t, bits, data, 27);
    LgWord(data);
    DistanceHeard(s, t, bits, lag, phase, silence);
    LgDispatch(Heard(s, DistanceFrame(t, bits), lag, phase, silence).rawbuf, bits, GapOf(s));
  }
}
