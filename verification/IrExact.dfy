/** Exactly what each decoder accepts: for every recording, the answers it can give and when it gives them. */
module IrExact {
  import opened Arithmetic
  import opened Options
  import opened IrSampler
  import opened IrDecoders
  import opened IrWords
  import opened IrDispatch

  // ---- tolerance windows ----

  /** From 75 percent of the length, rounded down to ticks of 50 microseconds, to 125 percent and one tick more; the
      sensor makes marks longer by 100 and spaces shorter. */
  lemma Windows(ticks: nat, us: nat)
    ensures MatchMark(ticks, us) <==> 3 * (us + 100) < 200 * (ticks + 1) && 40 * (ticks - 1) <= us + 100
    ensures us >= 100 ==> (MatchSpace(ticks, us) <==> 3 * (us - 100) < 200 * (ticks + 1) && 40 * (ticks - 1) <= us - 100)
  {
  }

  // ---- pulse distance ----

  /** The bit read from entry number `i` of the pairs from `offset` on. */
  function LongSpaces(buf: seq<nat>, offset: nat, n: nat, one: nat): seq<bool>
    requires one >= MARK_EXCESS && offset + 2 * n <= |buf|
  {
    seq(n, i requires 0 <= i < n => MatchSpace(buf[offset + 2 * i + 1], one))
  }

  /** `n` marks of one length, each with a space after it that is one of two lengths; the number is spelt by the spaces,
      its highest digit first. */
  predicate DistanceWord(buf: seq<nat>, offset: nat, n: nat, mark: nat, one: nat, zero: nat, v: nat)
    requires one >= 100 && zero >= 100 && offset + 2 * n <= |buf|
  {
    && (forall i | 0 <= i < n :: MatchMark(buf[offset + 2 * i], mark))
    && (forall i | 0 <= i < n :: MatchSpace(buf[offset + 2 * i + 1], one) || MatchSpace(buf[offset + 2 * i + 1], zero))
    && v < Pow2(n)
    && (forall i | 0 <= i < n :: Digit(v, n - 1 - i) <==> MatchSpace(buf[offset + 2 * i + 1], one))
  }

  predicate PairFits(buf: seq<nat>, j: nat, t: Timing)
    requires Proper(t) && j + 2 <= |buf|
  {
    MatchMark(buf[j], t.bitMark) && (MatchSpace(buf[j + 1], t.oneSpace) || MatchSpace(buf[j + 1], t.zeroSpace))
  }

  predicate PairsFit(buf: seq<nat>, offset: nat, n: nat, t: Timing)
    requires Proper(t) && offset + 2 * n <= |buf|
  {
    forall i | 0 <= i < n :: PairFits(buf, offset + 2 * i, t)
  }

  lemma PairsFitFirst(buf: seq<nat>, offset: nat, n: nat, t: Timing)
    requires Proper(t) && offset + 2 * n <= |buf| && n > 0
    ensures PairsFit(buf, offset, n, t) <==> PairFits(buf, offset, t) && PairsFit(buf, offset + 2, n - 1, t)
    ensures LongSpaces(buf, offset, n, t.oneSpace) ==
            [MatchSpace(buf[offset + 1], t.oneSpace)] + LongSpaces(buf, offset + 2, n - 1, t.oneSpace)
  {
    hide MatchMark, MatchSpace, PairFits;
    if PairsFit(buf, offset, n, t) {
      assert PairFits(buf, offset + 2 * 0, t);
      forall i | 0 <= i < n - 1 ensures PairFits(buf, offset + 2 + 2 * i, t) {
        assert PairFits(buf, offset + 2 * (i + 1), t);
      }
    }
    if PairFits(buf, offset, t) && PairsFit(buf, offset + 2, n - 1, t) {
      forall i | 0 <= i < n ensures PairFits(buf, offset + 2 * i, t) {
        if i > 0 {
          assert PairFits(buf, offset + 2 + 2 * (i - 1), t);
        }
      }
    }
  }

  lemma {:induction false} PairsDecide(buf: seq<nat>, offset: nat, n: nat, t: Timing, data: nat, modulus: nat)
    requires Proper(t) && modulus > 0 && offset + 2 * n <= |buf|
    ensures DistanceBits(buf, offset, n, t, data, modulus) ==
            if PairsFit(buf, offset, n, t) then Some(ShiftedIn(data, LongSpaces(buf, offset, n, t.oneSpace), modulus)) else None
    decreases n
  {
    if n > 0 {
      hide MatchMark, MatchSpace, PairsFit, LongSpaces;
      PairsFitFirst(buf, offset, n, t);
      var one := MatchSpace(buf[offset + 1], t.oneSpace);
      PairsDecide(buf, offset + 2, n - 1, t, (data * 2 + Bit(one)) % modulus, modulus);
      assert ([one] + LongSpaces(buf, offset + 2, n - 1, t.oneSpace))[1..] == LongSpaces(buf, offset + 2, n - 1, t.oneSpace);
    }
  }

  /** No digit is set above 2^n. */
  lemma DigitsBelow(v: nat, n: nat, m: nat)
    requires n <= m
    ensures v < Pow2(n) ==> v < Pow2(m) && forall k: nat :: n <= k ==> !Digit(v, k)
  {
    Pow2Monotone(n, m);
    if v < Pow2(n) {
      forall k: nat | n <= k ensures !Digit(v, k) {
        Pow2Monotone(n, k);
        QuotientIs(v, Pow2(k), 0, v);
      }
    }
  }

  lemma {:induction false} BelowByDigits(v: nat, n: nat, m: nat)
    requires n <= m && v < Pow2(m) && forall k: nat :: n <= k < m ==> !Digit(v, k)
    ensures v < Pow2(n)
    decreases m
  {
    if n < m {
      Pow2Step(m - 1);
      hide Pow2;
      assert !Digit(v, m - 1);
      if v >= Pow2(m - 1) {
        QuotientIs(v, Pow2(m - 1), 1, v - Pow2(m - 1));
      }
      BelowByDigits(v, n, m - 1);
    }
  }

  /** Reading in reverse: digit n - 1 - i for bit i. */
  lemma SpellsByPlace(v: nat, bits: seq<bool>, m: nat)
    requires |bits| <= m
    ensures Spells(v, bits, m) <==>
            v < Pow2(|bits|) && forall i :: 0 <= i < |bits| ==> (Digit(v, |bits| - 1 - i) <==> bits[i])
  {
    hide Digit, Pow2;
    var n := |bits|;
    DigitsBelow(v, n, m);
    if Spells(v, bits, m) {
      BelowByDigits(v, n, m);
      forall i | 0 <= i < n ensures Digit(v, n - 1 - i) <==> bits[i] {
        assert bits[n - 1 - (n - 1 - i)] == bits[i];
      }
    }
    if v < Pow2(n) && forall i :: 0 <= i < n ==> (Digit(v, n - 1 - i) <==> bits[i]) {
      forall k: nat | k < m ensures Digit(v, k) <==> (k < n && bits[n - 1 - k]) {
        if k < n {
          assert Digit(v, n - 1 - (n - 1 - k)) <==> bits[n - 1 - k];
        }
      }
    }
  }

  lemma DistanceExact(buf: seq<nat>, offset: nat, n: nat, t: Timing, m: nat, v: nat)
    requires Proper(t) && n <= m && offset + 2 * n <= |buf|
    ensures DistanceBits(buf, offset, n, t, 0, Pow2(m)) == Some(v) <==>
            DistanceWord(buf, offset, n, t.bitMark, t.oneSpace, t.zeroSpace, v)
  {
    hide MatchMark, MatchSpace, Digit, Pow2;
    var bits := LongSpaces(buf, offset, n, t.oneSpace);
    PairsDecide(buf, offset, n, t, 0, Pow2(m));
    SpellsTell(v, bits, m);
    SpellsByPlace(v, bits, m);
  }

  lemma DistanceExact32(buf: seq<nat>, offset: nat, n: nat, t: Timing, v: nat)
    requires Proper(t) && n <= 32 && offset + 2 * n <= |buf|
    ensures DistanceBits(buf, offset, n, t, 0, WORD32) == Some(v) <==>
            DistanceWord(buf, offset, n, t.bitMark, t.oneSpace, t.zeroSpace, v)
  {
    Pow2Powers();
    hide Pow2, DistanceWord;
    DistanceExact(buf, offset, n, t, 32, v);
  }

  /** NEC: the repeat code, or 32 bits after a header. */
  lemma NecExact(buf: seq<nat>, rawlen: nat, r: Results)
    requires |buf| == 100
    ensures NecResult(buf, rawlen) == Some(r) <==>
            && MatchMark(buf[1], 9000)
            && if rawlen == 4 && MatchSpace(buf[2], 2250) && MatchMark(buf[3], 560) then r == Results(NEC, 0, 0xffff_ffff, 0)
               else && rawlen >= 68 && MatchSpace(buf[2], 4500) && r == Results(NEC, 32, r.value, 0)
                    && DistanceWord(buf, 3, 32, 560, 1600, 560, r.value)
  {
    hide MatchMark, MatchSpace, DistanceWord, DistanceBits;
    DistanceExact32(buf, 3, 32, NecTiming, r.value);
  }

  lemma SamsungExact(buf: seq<nat>, rawlen: nat, r: Results)
    requires |buf| == 100
    ensures SamsungResult(buf, rawlen) == Some(r) <==>
            && MatchMark(buf[1], 5000)
            && if rawlen == 4 && MatchSpace(buf[2], 2250) && MatchMark(buf[3], 560) then r == Results(SAMSUNG, 0, 0xffff_ffff, 0)
               else && rawlen >= 68 && MatchSpace(buf[2], 5000) && r == Results(SAMSUNG, 32, r.value, 0)
                    && DistanceWord(buf, 3, 32, 560, 1600, 560, r.value)
  {
    hide MatchMark, MatchSpace, DistanceWord, DistanceBits;
    DistanceExact32(buf, 3, 32, SamsungTiming, r.value);
  }

  /** LG: 28 bits after a header, and a stop mark. */
  lemma LgExact(buf: seq<nat>, rawlen: nat, r: Results)
    requires |buf| == 100
    ensures LgResult(buf, rawlen) == Some(r) <==>
            && rawlen >= 57 && MatchMark(buf[1], 8000) && MatchSpace(buf[2], 4000) && r == Results(LG, 28, r.value, 0)
            && DistanceWord(buf, 3, 28, 600, 1600, 550, r.value) && MatchMark(buf[59], 600)
  {
    hide MatchMark, MatchSpace, DistanceWord, DistanceBits;
    DistanceExact32(buf, 3, 28, LgTiming, r.value);
  }

  /** JVC: 34 entries that start and end with the mark of a bit are a repeat, whatever is between them; or 16 bits. */
  lemma JvcExact(buf: seq<nat>, rawlen: nat, r: Results)
    requires |buf| == 100
    ensures JvcResult(buf, rawlen) == Some(r) <==>
            if rawlen == 34 && MatchMark(buf[1], 600) && MatchMark(buf[33], 600) then r == Results(JVC, 0, 0xffff_ffff, 0)
            else && rawlen >= 33 && MatchMark(buf[1], 8000) && MatchSpace(buf[2], 4000) && r == Results(JVC, 16, r.value, 0)
                 && DistanceWord(buf, 3, 16, 600, 1600, 550, r.value) && MatchMark(buf[35], 600)
  {
    hide MatchMark, MatchSpace, DistanceWord, DistanceBits;
    DistanceExact32(buf, 3, 16, JvcTiming, r.value);
  }

  /** Panasonic: 48 bits, of which the upper 16 are the address; the header space is measured like a mark. */
  lemma PanasonicExact(buf: seq<nat>, r: Results)
    requires |buf| == 100
    ensures PanasonicResult(buf) == Some(r) <==>
            && MatchMark(buf[1], 3502) && MatchMark(buf[2], 1750)
            && r == Results(PANASONIC, 48, r.value, r.panasonicAddress) && r.value < 0x1_0000_0000
            && DistanceWord(buf, 3, 48, 502, 1244, 400, r.panasonicAddress * 0x1_0000_0000 + r.value)
  {
    hide MatchMark, MatchSpace, DistanceWord, DistanceBits;
    Pow2SixtyFour();
    var word := r.panasonicAddress * WORD32 + r.value;
    DistanceExact(buf, 3, 48, PanasonicTiming, 64, word);
    if DistanceWord(buf, 3, 48, 502, 1244, 400, word) && r.value < WORD32 {
      WordBelow(buf, word);
      QuotientIs(word, WORD32, r.panasonicAddress, r.value);
      SmallMod(r.panasonicAddress, WORD16);
    }
    match DistanceBits(buf, 3, 48, PanasonicTiming, 0, WORD64) {
      case None =>
      case Some(data) =>
        DistanceExact(buf, 3, 48, PanasonicTiming, 64, data);
        WordBelow(buf, data);
        Parts(data);
    }
  }

  lemma Pow2SixtyFour()
    ensures Pow2(64) == WORD64
  {
    Pow2Powers();
    Pow2Add(32, 32);
  }

  lemma WordBelow(buf: seq<nat>, v: nat)
    requires |buf| == 100 && DistanceWord(buf, 3, 48, 502, 1244, 400, v)
    ensures v < 0x1_0000_0000_0000 && v / WORD32 < WORD16
  {
    Pow2Powers();
  }

  lemma Parts(data: nat)
    requires data / WORD32 < WORD16
    ensures data == data / WORD32 % WORD16 * WORD32 + data % WORD32
  {
  }

  // ---- pulse width ----

  predicate MarkFits(buf: seq<nat>, j: nat, space: nat, one: nat, zero: nat)
    requires space >= MARK_EXCESS && j + 2 <= |buf|
  {
    MatchSpace(buf[j], space) && (MatchMark(buf[j + 1], one) || MatchMark(buf[j + 1], zero))
  }

  /** The bits read from the marks of `n` pairs from `offset` on. */
  function LongMarks(buf: seq<nat>, offset: nat, n: nat, one: nat): seq<bool>
    requires offset + 2 * n <= |buf|
  {
    seq(n, i requires 0 <= i < n => MatchMark(buf[offset + 2 * i + 1], one))
  }

  /** `n` spaces of one length, each with a mark after it that is one of two lengths, up to the end of the recording or a
      space of another length; the marks spell the number, of which 32 digits are kept. */
  predicate WidthWord(buf: seq<nat>, rawlen: nat, offset: nat, n: nat, space: nat, one: nat, zero: nat, v: nat)
    requires space >= 100 && rawlen <= |buf|
  {
    && offset + 2 * n <= rawlen
    && (forall i | 0 <= i < n :: MarkFits(buf, offset + 2 * i, space, one, zero))
    && (offset + 2 * n + 1 >= rawlen || !MatchSpace(buf[offset + 2 * n], space))
    && v < 0x1_0000_0000
    && (forall k: nat | k < 32 :: Digit(v, k) <==> (k < n && MatchMark(buf[offset + 2 * (n - 1 - k) + 1], one)))
  }

  /** Where the bit loop ends, and why. */
  lemma {:induction false} WidthEnds(buf: seq<nat>, rawlen: nat, offset: nat, space: nat, one: nat, zero: nat, data: nat)
    returns (n: nat)
    requires space >= MARK_EXCESS && offset <= rawlen <= |buf|
    ensures offset + 2 * n <= rawlen && forall i :: 0 <= i < n ==> MarkFits(buf, offset + 2 * i, space, one, zero)
    ensures WidthBits(buf, rawlen, offset, space, one, zero, data) ==
            if offset + 2 * n + 1 >= rawlen || !MatchSpace(buf[offset + 2 * n], space) then
              Some(Reading(offset + 2 * n, ShiftedIn(data, LongMarks(buf, offset, n, one), WORD32)))
            else None
    ensures offset + 2 * n + 1 < rawlen ==> !MarkFits(buf, offset + 2 * n, space, one, zero)
    decreases rawlen - offset
  {
    hide MatchMark, MatchSpace;
    if offset + 1 >= rawlen || !MarkFits(buf, offset, space, one, zero) {
      n := 0;
    } else {
      var b := MatchMark(buf[offset + 1], one);
      var m := WidthEnds(buf, rawlen, offset + 2, space, one, zero, (data * 2 + Bit(b)) % WORD32);
      n := m + 1;
      forall i | 0 <= i < n ensures MarkFits(buf, offset + 2 * i, space, one, zero) {
        if i > 0 {
          assert MarkFits(buf, offset + 2 + 2 * (i - 1), space, one, zero);
        }
      }
      MoreMarks(buf, offset, m, one);
    }
  }

  lemma MoreMarks(buf: seq<nat>, offset: nat, m: nat, one: nat)
    requires offset + 2 + 2 * m <= |buf|
    ensures LongMarks(buf, offset, m + 1, one) == [MatchMark(buf[offset + 1], one)] + LongMarks(buf, offset + 2, m, one)
  {
    hide MatchMark;
    forall i | 1 <= i < m + 1 ensures offset + 2 * i + 1 == offset + 2 + 2 * (i - 1) + 1 {
    }
  }

  lemma WidthWordSpelt(buf: seq<nat>, rawlen: nat, offset: nat, n: nat, space: nat, one: nat, zero: nat, v: nat)
    requires space >= MARK_EXCESS && rawlen <= |buf| && offset + 2 * n <= rawlen
    ensures WidthWord(buf, rawlen, offset, n, space, one, zero, v) <==>
            && (forall i :: 0 <= i < n ==> MarkFits(buf, offset + 2 * i, space, one, zero))
            && (offset + 2 * n + 1 >= rawlen || !MatchSpace(buf[offset + 2 * n], space))
            && v == ShiftedIn(0, LongMarks(buf, offset, n, one), WORD32)
  {
    WidthDigits(buf, offset, n, one, v);
    hide MatchMark, MatchSpace, Digit, MarkFits, LongMarks, ShiftedIn;
  }

  /** The number shifted together out of `bits` in 32 bits, digit by digit. */
  lemma NumberIs(v: nat, bits: seq<bool>)
    ensures v == ShiftedIn(0, bits, WORD32) <==>
            && v < 0x1_0000_0000
            && forall k: nat :: k < 32 ==> (Digit(v, k) <==> (k < |bits| && bits[|bits| - 1 - k]))
  {
    Pow2Powers();
    SpellsTell(v, bits, 32);
    hide Digit, Pow2, ShiftedIn;
  }

  lemma WidthDigits(buf: seq<nat>, offset: nat, n: nat, one: nat, v: nat)
    requires offset + 2 * n <= |buf|
    ensures v == ShiftedIn(0, LongMarks(buf, offset, n, one), WORD32) <==>
            && v < 0x1_0000_0000
            && forall k: nat :: k < 32 ==> (Digit(v, k) <==> (k < n && MatchMark(buf[offset + 2 * (n - 1 - k) + 1], one)))
  {
    hide *;
    NumberIs(v, LongMarks(buf, offset, n, one));
    MarksByPlace(buf, offset, n, one);
  }

  lemma MarksByPlace(buf: seq<nat>, offset: nat, n: nat, one: nat)
    requires offset + 2 * n <= |buf|
    ensures |LongMarks(buf, offset, n, one)| == n
    ensures forall i :: 0 <= i < n ==> LongMarks(buf, offset, n, one)[i] == MatchMark(buf[offset + 2 * i + 1], one)
  {
  }

  lemma WidthExact(buf: seq<nat>, rawlen: nat, offset: nat, space: nat, one: nat, zero: nat, n: nat, v: nat)
    requires space >= MARK_EXCESS && offset <= rawlen <= |buf|
    ensures WidthBits(buf, rawlen, offset, space, one, zero, 0) == Some(Reading(offset + 2 * n, v)) <==>
            WidthWord(buf, rawlen, offset, n, space, one, zero, v)
  {
    hide MatchMark, WidthBits, WidthWord, LongMarks, ShiftedIn;
    var end := WidthEnds(buf, rawlen, offset, space, one, zero, 0);
    if offset + 2 * n <= rawlen {
      WidthWordSpelt(buf, rawlen, offset, n, space, one, zero, v);
      if n < end {
        assert MarkFits(buf, offset + 2 * n, space, one, zero);
      } else if end < n {
        assert offset + 2 * end + 1 < rawlen;
      }
    } else {
      NoWidthWord(buf, rawlen, offset, n, space, one, zero, v);
    }
  }

  lemma NoWidthWord(buf: seq<nat>, rawlen: nat, offset: nat, n: nat, space: nat, one: nat, zero: nat, v: nat)
    requires space >= MARK_EXCESS && rawlen <= |buf| && offset + 2 * n > rawlen
    ensures !WidthWord(buf, rawlen, offset, n, space, one, zero, v)
  {
  }

  /** The bit loop stops after a whole number of pairs. */
  lemma WidthEven(buf: seq<nat>, rawlen: nat, offset: nat, space: nat, one: nat, zero: nat, data: nat)
    requires space >= MARK_EXCESS && offset <= rawlen <= |buf|
    ensures var r := WidthBits(buf, rawlen, offset, space, one, zero, data);
            r.Some? ==> r.value.offset >= offset && (r.value.offset - offset) % 2 == 0
  {
    hide MatchMark, MatchSpace, WidthBits, LongMarks, ShiftedIn, MarkFits;
    var n := WidthEnds(buf, rawlen, offset, space, one, zero, data);
  }

  /** Sony: after a short gap, a repeat that is labelled as one of Sanyo's; otherwise at least 12 bits after a header. */
  lemma SonyExact(buf: seq<nat>, rawlen: nat, r: Results)
    requires |buf| == 100 && rawlen <= 100
    ensures SonyResult(buf, rawlen) == Some(r) <==>
            && rawlen >= 26
            && if buf[0] < 500 then r == Results(SANYO, 0, 0xffff_ffff, 0)
               else && MatchMark(buf[1], 2400) && r == Results(SONY, r.bits, r.value, 0) && r.bits >= 12
                    && WidthWord(buf, rawlen, 2, r.bits, 600, 1200, 600, r.value)
  {
    hide MatchMark, MatchSpace, WidthBits, WidthWord;
    if rawlen >= 26 {
      WidthExact(buf, rawlen, 2, 600, 1200, 600, r.bits, r.value);
      WidthEven(buf, rawlen, 2, 600, 1200, 600, 0);
    }
  }

  /** Sanyo: two header entries and at least eleven pairs, which are counted as one more. */
  lemma SanyoExact(buf: seq<nat>, rawlen: nat, r: Results)
    requires |buf| == 100 && rawlen <= 100
    ensures SanyoResult(buf, rawlen) == Some(r) <==>
            && rawlen >= 26
            && if buf[0] < 800 then r == Results(SANYO, 0, 0xffff_ffff, 0)
               else && MatchMark(buf[1], 3500) && MatchMark(buf[2], 3500)
                    && r == Results(SANYO, r.bits, r.value, 0) && r.bits >= 12
                    && WidthWord(buf, rawlen, 3, r.bits - 1, 950, 2400, 700, r.value)
  {
    hide MatchMark, MatchSpace, WidthBits, WidthWord;
    if rawlen >= 26 {
      if r.bits >= 1 {
        WidthExact(buf, rawlen, 3, 950, 2400, 700, r.bits - 1, r.value);
      }
      WidthEven(buf, rawlen, 3, 950, 2400, 700, 0);
    }
  }

  // ---- Mitsubishi: the space before each mark tells the bit ----

  predicate BitFits(buf: seq<nat>, j: nat)
    requires j < |buf|
  {
    MatchMark(buf[j], 1950) || MatchMark(buf[j], 750)
  }

  function LongFirst(buf: seq<nat>, offset: nat, n: nat): seq<bool>
    requires offset + 2 * n <= |buf| + 1
  {
    seq(n, i requires 0 <= i < n => MatchMark(buf[offset + 2 * i], 1950))
  }

  /** `n` entries that tell a bit each, with an entry of 350 after each but the last; the recording ends there, or it goes
      on with an entry of another length. */
  predicate MarkFirstCount(buf: seq<nat>, rawlen: nat, n: nat)
    requires rawlen <= |buf|
  {
    && n >= 1 && 2 * n + 2 <= rawlen
    && (forall i | 0 <= i < n :: TellsBit(buf, i))
    && (forall i | 0 <= i < n - 1 :: MarkAfter(buf, i))
    && (2 * n + 3 >= rawlen || !MarkAfter(buf, n - 1))
  }

  /** The entry for bit number `i` has one of two lengths. */
  predicate TellsBit(buf: seq<nat>, i: nat)
    requires 2 * i + 2 < |buf|
  {
    MatchMark(buf[2 * i + 2], 1950) || MatchMark(buf[2 * i + 2], 750)
  }

  /** The entry after it is of 350 microseconds, measured like a space. */
  predicate MarkAfter(buf: seq<nat>, i: nat)
    requires 2 * i + 3 < |buf|
  {
    MatchSpace(buf[2 * i + 3], 350)
  }

  /** The entries that tell the bits spell the number, of which 32 digits are kept. */
  predicate MarkFirstWord(buf: seq<nat>, rawlen: nat, n: nat, v: nat)
    requires rawlen <= |buf|
  {
    && MarkFirstCount(buf, rawlen, n) && v < 0x1_0000_0000
    && (forall k: nat | k < 32 :: Digit(v, k) <==> (k < n && MatchMark(buf[2 * (n - 1 - k) + 2], 1950)))
  }

  /** Where the bit loop of Mitsubishi's ends, and why: after `n` bits, or for lack of one. */
  lemma {:induction false} MarkFirstEnds(buf: seq<nat>, rawlen: nat, offset: nat, data: nat) returns (n: nat)
    requires offset <= rawlen <= |buf|
    ensures offset + 2 * n <= rawlen + 1
    ensures forall i :: 0 <= i < n ==> BitFits(buf, offset + 2 * i)
    ensures forall i :: 0 <= i < n - 1 ==> MatchSpace(buf[offset + 2 * i + 1], 350)
    ensures match MarkFirstBits(buf, rawlen, offset, data)
            case None => offset + 2 * n + 1 < rawlen && !BitFits(buf, offset + 2 * n)
                         && (n > 0 ==> MatchSpace(buf[offset + 2 * n - 1], 350))
            case Some(reading) =>
              && reading.data == ShiftedIn(data, LongFirst(buf, offset, n), WORD32) && offset + 2 * n <= rawlen
              && (n > 0 ==> (reading.offset == offset + 2 * n) == MatchSpace(buf[offset + 2 * n - 1], 350))
              && (reading.offset == offset + 2 * n || (n > 0 && reading.offset == offset + 2 * n - 1))
              && (reading.offset == offset + 2 * n ==> offset + 2 * n + 1 >= rawlen)
    decreases rawlen - offset
  {
    hide MatchMark, MatchSpace;
    if offset + 1 >= rawlen || !BitFits(buf, offset) {
      n := 0;
    } else {
      var b := MatchMark(buf[offset], 1950);
      if !MatchSpace(buf[offset + 1], 350) {
        n := 1;
        OneMoreFirst(buf, offset, 0);
      } else {
        var m := MarkFirstEnds(buf, rawlen, offset + 2, (data * 2 + Bit(b)) % WORD32);
        n := m + 1;
        OneMoreFirst(buf, offset, m);
        forall i | 0 <= i < n ensures BitFits(buf, offset + 2 * i) {
          if i > 0 {
            assert BitFits(buf, offset + 2 + 2 * (i - 1));
          }
        }
        forall i | 0 <= i < n - 1 ensures MatchSpace(buf[offset + 2 * i + 1], 350) {
          if i > 0 {
            assert MatchSpace(buf[offset + 2 + 2 * (i - 1) + 1], 350);
          }
        }
      }
    }
  }

  lemma OneMoreFirst(buf: seq<nat>, offset: nat, m: nat)
    requires offset + 2 + 2 * m <= |buf| + 1
    ensures LongFirst(buf, offset, m + 1) == [MatchMark(buf[offset], 1950)] + LongFirst(buf, offset + 2, m)
  {
  }

  lemma FirstDigits(buf: seq<nat>, n: nat, v: nat)
    requires 2 + 2 * n <= |buf| + 1
    ensures v == ShiftedIn(0, LongFirst(buf, 2, n), WORD32) <==>
            && v < 0x1_0000_0000
            && forall k: nat :: k < 32 ==> (Digit(v, k) <==> (k < n && MatchMark(buf[2 * (n - 1 - k) + 2], 1950)))
  {
    hide *;
    NumberIs(v, LongFirst(buf, 2, n));
    FirstByPlace(buf, n);
  }

  lemma FirstByPlace(buf: seq<nat>, n: nat)
    requires 2 + 2 * n <= |buf| + 1
    ensures |LongFirst(buf, 2, n)| == n
    ensures forall i :: 0 <= i < n ==> LongFirst(buf, 2, n)[i] == MatchMark(buf[2 * i + 2], 1950)
  {
  }

  lemma MarkFirstParts(buf: seq<nat>, rawlen: nat, n: nat, v: nat)
    requires rawlen <= |buf|
    ensures MarkFirstWord(buf, rawlen, n, v) <==>
            MarkFirstCount(buf, rawlen, n) && v == ShiftedIn(0, LongFirst(buf, 2, n), WORD32)
  {
    hide MatchMark, TellsBit, MarkAfter, Digit, ShiftedIn, LongFirst;
    if 2 * n + 2 <= rawlen {
      FirstDigits(buf, n, v);
    }
  }

  /** The same from the first bit on, counted in bits. */
  lemma BitsEnd(buf: seq<nat>, rawlen: nat) returns (n: nat)
    requires 2 <= rawlen <= |buf|
    ensures 2 * n + 1 <= rawlen && (forall i :: 0 <= i < n ==> TellsBit(buf, i)) && forall i :: 0 <= i < n - 1 ==> MarkAfter(buf, i)
    ensures match MarkFirstBits(buf, rawlen, 2, 0)
            case None => 2 * n + 3 < rawlen && !TellsBit(buf, n) && (n > 0 ==> MarkAfter(buf, n - 1))
            case Some(reading) =>
              && reading.data == ShiftedIn(0, LongFirst(buf, 2, n), WORD32) && 2 * n + 2 <= rawlen
              && reading.offset >= 2 && (reading.offset - 1) / 2 == n
              && ((n > 0 && !MarkAfter(buf, n - 1)) || 2 * n + 3 >= rawlen)
  {
    hide MatchMark, MatchSpace, MarkFirstBits, ShiftedIn, LongFirst;
    n := MarkFirstEnds(buf, rawlen, 2, 0);
    forall i | 0 <= i < n ensures TellsBit(buf, i) {
      assert BitFits(buf, 2 + 2 * i);
    }
    forall i | 0 <= i < n - 1 ensures MarkAfter(buf, i) {
      assert MatchSpace(buf[2 + 2 * i + 1], 350);
    }
  }

  lemma MarkFirstRead(buf: seq<nat>, rawlen: nat, n: nat)
    requires 2 <= rawlen <= |buf| && MarkFirstCount(buf, rawlen, n)
    ensures var r := MarkFirstBits(buf, rawlen, 2, 0);
            r.Some? && (r.value.offset - 1) / 2 == n && r.value.data == ShiftedIn(0, LongFirst(buf, 2, n), WORD32)
  {
    hide TellsBit, MarkAfter, MarkFirstBits, ShiftedIn, LongFirst;
    var end := BitsEnd(buf, rawlen);
  }

  lemma MarkFirstStops(buf: seq<nat>, rawlen: nat)
    requires 2 <= rawlen <= |buf|
    ensures var r := MarkFirstBits(buf, rawlen, 2, 0);
            r.Some? ==> r.value.offset >= 2
                        && var n := (r.value.offset - 1) / 2; n >= 1 ==> MarkFirstCount(buf, rawlen, n)
  {
    hide TellsBit, MarkAfter, MarkFirstBits, ShiftedIn, LongFirst;
    var n := BitsEnd(buf, rawlen);
  }

  /** Mitsubishi: at least 16 bits after one mark. */
  lemma MitsubishiExact(buf: seq<nat>, rawlen: nat, r: Results)
    requires |buf| == 100 && rawlen <= 100
    ensures MitsubishiResult(buf, rawlen) == Some(r) <==>
            && rawlen >= 34 && MatchMark(buf[1], 350) && r == Results(MITSUBISHI, r.bits, r.value, 0) && r.bits >= 16
            && MarkFirstWord(buf, rawlen, r.bits, r.value)
  {
    hide MatchMark, MatchSpace, MarkFirstBits, MarkFirstWord, MarkFirstCount, ShiftedIn, LongFirst;
    if rawlen >= 34 {
      MarkFirstParts(buf, rawlen, r.bits, r.value);
      MarkFirstStops(buf, rawlen);
      if MarkFirstCount(buf, rawlen, r.bits) {
        MarkFirstRead(buf, rawlen, r.bits);
      }
    }
  }

  // ---- all ten ----

  /** The order in which the decoders are asked; the first one that accepts the recording gives the answer. */
  lemma FirstAnswers(buf: seq<nat>, rawlen: nat, k: nat)
    requires |buf| == 100 && rawlen <= 100 && k <= 10
    ensures var answers := [NecResult(buf, rawlen), SonyResult(buf, rawlen), SanyoResult(buf, rawlen), MitsubishiResult(buf, rawlen),
                            Rc5Result(buf, rawlen), Rc6Result(buf, rawlen), PanasonicResult(buf), LgResult(buf, rawlen),
                            JvcResult(buf, rawlen), SamsungResult(buf, rawlen)];
            (forall i :: 0 <= i < k ==> answers[i] == None) && (k < 10 ==> answers[k] != None) ==>
              DecodeResult(buf, rawlen) == if k < 10 then answers[k] else None
  {
    hide NecResult, SonyResult, SanyoResult, MitsubishiResult, Rc5Result, Rc6Result, PanasonicResult, LgResult, JvcResult,
         SamsungResult;
    var answers := [NecResult(buf, rawlen), SonyResult(buf, rawlen), SanyoResult(buf, rawlen), MitsubishiResult(buf, rawlen),
                    Rc5Result(buf, rawlen), Rc6Result(buf, rawlen), PanasonicResult(buf), LgResult(buf, rawlen),
                    JvcResult(buf, rawlen), SamsungResult(buf, rawlen)];
    assert && answers[0] == NecResult(buf, rawlen) && answers[1] == SonyResult(buf, rawlen)
           && answers[2] == SanyoResult(buf, rawlen) && answers[3] == MitsubishiResult(buf, rawlen)
           && answers[4] == Rc5Result(buf, rawlen) && answers[5] == Rc6Result(buf, rawlen)
           && answers[6] == PanasonicResult(buf) && answers[7] == LgResult(buf, rawlen)
           && answers[8] == JvcResult(buf, rawlen) && answers[9] == SamsungResult(buf, rawlen);
  }

  lemma KindsOf(buf: seq<nat>, rawlen: nat)
    requires |buf| == 100 && rawlen <= 100
    ensures NecResult(buf, rawlen).Some? ==> NecResult(buf, rawlen).value.kind == NEC
    ensures SonyResult(buf, rawlen).Some? ==> SonyResult(buf, rawlen).value.kind == SONY || SonyResult(buf, rawlen).value.bits == 0
    ensures Rc5Result(buf, rawlen).Some? ==> Rc5Result(buf, rawlen).value.kind == RC5
    ensures Rc6Result(buf, rawlen).Some? ==> Rc6Result(buf, rawlen).value.kind == RC6
    ensures PanasonicResult(buf).Some? ==> PanasonicResult(buf).value.kind == PANASONIC
    ensures LgResult(buf, rawlen).Some? ==> LgResult(buf, rawlen).value.kind == LG
    ensures JvcResult(buf, rawlen).Some? ==> JvcResult(buf, rawlen).value.kind == JVC
    ensures SamsungResult(buf, rawlen).Some? ==> SamsungResult(buf, rawlen).value.kind == SAMSUNG
  {
    hide DistanceBits, WidthBits, RcBits, Expect, MatchMark, MatchSpace;
  }

  lemma SanyoKinds(buf: seq<nat>, rawlen: nat)
    requires |buf| == 100 && rawlen <= 100
    ensures SanyoResult(buf, rawlen).Some? ==> SanyoResult(buf, rawlen).value.kind == SANYO
    ensures MitsubishiResult(buf, rawlen).Some? ==> MitsubishiResult(buf, rawlen).value.kind == MITSUBISHI
  {
    hide WidthBits, MarkFirstBits, MatchMark;
  }

  /** A code, as opposed to a repeat, comes from the decoder that it is labelled with. */
  lemma CodesAreLabelled(buf: seq<nat>, rawlen: nat, r: Results)
    requires |buf| == 100 && rawlen <= 100 && DecodeResult(buf, rawlen) == Some(r) && r.bits > 0
    ensures match r.kind
            case NEC => NecResult(buf, rawlen) == Some(r)
            case SONY => SonyResult(buf, rawlen) == Some(r)
            case SANYO => SanyoResult(buf, rawlen) == Some(r)
            case MITSUBISHI => MitsubishiResult(buf, rawlen) == Some(r)
            case RC5 => Rc5Result(buf, rawlen) == Some(r)
            case RC6 => Rc6Result(buf, rawlen) == Some(r)
            case PANASONIC => PanasonicResult(buf) == Some(r)
            case LG => LgResult(buf, rawlen) == Some(r)
            case JVC => JvcResult(buf, rawlen) == Some(r)
            case SAMSUNG => SamsungResult(buf, rawlen) == Some(r)
  {
    KindsOf(buf, rawlen);
    SanyoKinds(buf, rawlen);
    hide NecResult, SonyResult, SanyoResult, MitsubishiResult, Rc5Result, Rc6Result, PanasonicResult, LgResult, JvcResult,
         SamsungResult;
  }

  lemma SanyoComesFirst(buf: seq<nat>, rawlen: nat)
    requires |buf| == 100 && 26 <= rawlen <= 100 && buf[0] >= 800 && MatchMark(buf[1], 3500) && MatchMark(buf[2], 3500)
    ensures SanyoResult(buf, rawlen).Some? ==> DecodeResult(buf, rawlen) == SanyoResult(buf, rawlen)
  {
    hide NecResult, SonyResult, SanyoResult, MitsubishiResult, Rc5Result, Rc6Result, PanasonicResult, LgResult, JvcResult,
         SamsungResult;
    NotNec(buf, rawlen);
    NotSonySpace(buf, rawlen);
  }

  /** A recording is taken for a code of Sanyo's exactly if it comes after a gap of 800 ticks, with two header entries of
      3500 and at least eleven pairs. */
  lemma SanyoReceived(buf: seq<nat>, rawlen: nat, r: Results)
    requires |buf| == 100 && rawlen <= 100 && r.kind == SANYO && r.bits > 0
    ensures DecodeResult(buf, rawlen) == Some(r) <==>
            && rawlen >= 26 && buf[0] >= 800 && MatchMark(buf[1], 3500) && MatchMark(buf[2], 3500)
            && r == Results(SANYO, r.bits, r.value, 0) && r.bits >= 12
            && WidthWord(buf, rawlen, 3, r.bits - 1, 950, 2400, 700, r.value)
  {
    hide WidthWord, MatchMark, DecodeResult, SanyoResult;
    SanyoExact(buf, rawlen, r);
    if DecodeResult(buf, rawlen) == Some(r) {
      CodesAreLabelled(buf, rawlen, r);
    }
    if SanyoResult(buf, rawlen) == Some(r) {
      SanyoComesFirst(buf, rawlen);
    }
  }

  lemma MitsubishiComesAfter(buf: seq<nat>, rawlen: nat)
    requires |buf| == 100 && 34 <= rawlen <= 100 && MatchMark(buf[1], 350)
    ensures buf[0] < 800 ==> DecodeResult(buf, rawlen) == Some(Results(SANYO, 0, 0xffff_ffff, 0))
    ensures buf[0] >= 800 && MitsubishiResult(buf, rawlen).Some? ==> DecodeResult(buf, rawlen) == MitsubishiResult(buf, rawlen)
  {
    hide NecResult, SonyResult, SanyoResult, MitsubishiResult, Rc5Result, Rc6Result, PanasonicResult, LgResult, JvcResult,
         SamsungResult;
    NotNec(buf, rawlen);
    if buf[0] >= 500 {
      NotSony(buf, rawlen);
    }
    if buf[0] < 800 {
      ShortGap(buf, rawlen);
    } else {
      NotSanyo(buf, rawlen);
    }
  }

  /** A recording is taken for one of Mitsubishi's exactly if it comes after a gap of 800 ticks, with a first mark of 350
      and at least 16 bits. */
  lemma MitsubishiReceived(buf: seq<nat>, rawlen: nat, r: Results)
    requires |buf| == 100 && rawlen <= 100 && r.kind == MITSUBISHI && r.bits > 0
    ensures DecodeResult(buf, rawlen) == Some(r) <==>
            && rawlen >= 34 && buf[0] >= 800 && MatchMark(buf[1], 350)
            && r == Results(MITSUBISHI, r.bits, r.value, 0) && r.bits >= 16
            && MarkFirstWord(buf, rawlen, r.bits, r.value)
  {
    hide MarkFirstWord, MatchMark, DecodeResult, MitsubishiResult;
    MitsubishiExact(buf, rawlen, r);
    if rawlen >= 34 && MatchMark(buf[1], 350) {
      MitsubishiComesAfter(buf, rawlen);
    }
    if DecodeResult(buf, rawlen) == Some(r) {
      CodesAreLabelled(buf, rawlen, r);
    }
  }

  /** The recording that the decoder calls typical of Mitsubishi's: one entry of 8 ticks where only 3 to 7 are taken. */
  const TypicalMitsubishi: seq<nat> :=
    [14200, 7, 41, 7, 42, 7, 42, 7, 17, 7, 17, 7, 18, 7, 41, 7, 18, 7, 17, 7, 17, 7, 18, 7, 41, 8, 17, 7, 17, 7, 18, 7, 17, 7]

  /** It is a code to none of the ten decoders, whatever else the buffer holds. */
  lemma TypicalMitsubishiRefused(buf: seq<nat>)
    requires |buf| == 100 && buf[..34] == TypicalMitsubishi
    ensures DecodeResult(buf, 34) == None
  {
    assert buf[0] == buf[..34][0] && buf[1] == buf[..34][1] && buf[25] == buf[..34][25];
    hide NecResult, SonyResult, SanyoResult, MitsubishiResult, Rc5Result, Rc6Result, PanasonicResult, LgResult, JvcResult,
         SamsungResult;
    NotNec(buf, 34);
    NotSony(buf, 34);
    NotSanyo(buf, 34);
    TypicalStops(buf);
    NoRc5Mark(buf, 34);
    NotRc6(buf, 34);
    NotPanasonic(buf);
    NotLg(buf, 34);
    NoJvcMark(buf, 34);
    NoSamsungMark(buf, 34);
  }

  lemma TypicalStops(buf: seq<nat>)
    requires |buf| == 100 && buf[25] == 8
    ensures MitsubishiResult(buf, 34) == None
  {
    assert !MarkAfter(buf, 11);
    var r := MitsubishiResult(buf, 34);
    hide MitsubishiResult, MarkAfter, TellsBit;
    if r.Some? {
      MitsubishiExact(buf, 34, r.value);
    }
  }

  lemma NoRc5Mark(buf: seq<nat>, rawlen: nat)
    requires |buf| == 100 && rawlen <= 100 && buf[1] < 14
    ensures Rc5Result(buf, rawlen) == None
  {
    assert Avail(buf[1], true, RC5_T1) == 0;
    hide RcBits, Expect, Avail;
    ExpectThree(buf, rawlen, Position(1, 0), RC5_T1, true, false, true);
  }

  lemma NoJvcMark(buf: seq<nat>, rawlen: nat)
    requires |buf| == 100 && rawlen <= 100 && buf[1] < 10
    ensures JvcResult(buf, rawlen) == None
  {
    hide DistanceBits;
  }

  lemma NoSamsungMark(buf: seq<nat>, rawlen: nat)
    requires |buf| == 100 && rawlen <= 100 && buf[1] < 10
    ensures SamsungResult(buf, rawlen) == None
  {
    hide DistanceBits;
  }
}
