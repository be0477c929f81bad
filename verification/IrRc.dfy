/** Reading RC5 and RC6 frames back from a recording. */
module IrRc {
  import opened Arithmetic
  import opened Options
  import opened IrSignal
  import opened IrSampler
  import opened IrDecoders
  import opened IrSenders
  import opened IrCapture
  import opened IrWords
  import opened IrManchester

  // ---- tolerance windows of the level reader ----

  lemma Rc5Entry(c: nat, mark: bool, r: nat, excess: nat)
    requires UsualExcess(excess) && 1 <= r <= 2
    requires SeenFor(if mark then RC5_T1 * r + excess else RC5_T1 * r - excess, c)
    ensures Avail(c, mark, RC5_T1) == r
  {
    if r == 1 {
    } else {
      assert r == 2;
    }
  }

  lemma Rc6Entry(c: nat, mark: bool, r: nat, excess: nat)
    requires UsualExcess(excess) && 1 <= r <= 3
    requires SeenFor(if mark then RC6_T1 * r + excess else RC6_T1 * r - excess, c)
    ensures Avail(c, mark, RC6_T1) == r
  {
    if r == 1 {
    } else if r == 2 {
    } else {
      assert r == 3;
    }
  }

  /** An entry `c` after the header holds `r` intervals of `t`. */
  lemma RunEntry(buf: seq<nat>, header: seq<nat>, t: nat, rs: seq<nat>, counts: seq<nat>, lag: nat -> nat, i: nat)
    requires InBuffer(buf, counts) && Recording(header + Scaled(t, rs), lag, counts)
    requires |header| % 2 == 0 && i < |rs|
    ensures |buf| == RAWBUF && |counts| == |header| + |rs|
    ensures var e := |header| + 1 + i;
            SeenFor(if e % 2 == 1 then t * rs[i] + lag(e - 1) else t * rs[i] - lag(e - 1), buf[e])
  {
    BufferLength(buf, counts);
    EntrySeen(buf, header + Scaled(t, rs), lag, counts, |header| + 1 + i);
  }

  lemma Rc5Reads(buf: seq<nat>, rs: seq<nat>, counts: seq<nat>, lag: nat -> nat)
    requires UsualLag(lag) && AtMost(rs, 2) && forall i :: 0 <= i < |rs| ==> rs[i] > 0
    requires InBuffer(buf, counts) && Recording(Scaled(RC5_T1, rs), lag, counts)
    ensures Reads(buf, |counts| + 1, 1, rs, RC5_T1)
  {
    assert [] + Scaled(RC5_T1, rs) == Scaled(RC5_T1, rs);
    BufferLength(buf, counts);
    hide Avail, Recording, InBuffer, Scaled;
    RecordingLength(Scaled(RC5_T1, rs), lag, counts, buf);
    ScaledLength(RC5_T1, rs);
    forall i | 0 <= i < |rs| ensures 1 <= rs[i] <= 3 && Avail(buf[1 + i], (1 + i) % 2 == 1, RC5_T1) == rs[i] {
      RunEntry(buf, [], RC5_T1, rs, counts, lag, i);
      Rc5Entry(buf[1 + i], (1 + i) % 2 == 1, rs[i], lag(i));
    }
  }

  lemma ScaledLength(t: nat, rs: seq<nat>)
    ensures |Scaled(t, rs)| == |rs|
  {
  }

  lemma RecordingLength(ws: seq<nat>, lag: nat -> nat, counts: seq<nat>, buf: seq<nat>)
    requires Recording(ws, lag, counts) && InBuffer(buf, counts)
    ensures |counts| == |ws| && |counts| + 1 <= |buf| == RAWBUF
  {
  }

  lemma Rc6Reads(buf: seq<nat>, rs: seq<nat>, counts: seq<nat>, lag: nat -> nat)
    requires UsualLag(lag) && AtMost(rs, 3) && forall i :: 0 <= i < |rs| ==> rs[i] > 0
    requires InBuffer(buf, counts) && Recording([2666, 889] + Scaled(RC6_T1, rs), lag, counts)
    ensures Reads(buf, |counts| + 1, 3, rs, RC6_T1)
  {
    BufferLength(buf, counts);
    hide Avail, Recording, InBuffer, Scaled;
    RecordingLength([2666, 889] + Scaled(RC6_T1, rs), lag, counts, buf);
    ScaledLength(RC6_T1, rs);
    forall i | 0 <= i < |rs| ensures 1 <= rs[i] <= 3 && Avail(buf[3 + i], (3 + i) % 2 == 1, RC6_T1) == rs[i] {
      RunEntry(buf, [2666, 889], RC6_T1, rs, counts, lag, i);
      Rc6Entry(buf[3 + i], (3 + i) % 2 == 1, rs[i], lag(2 + i));
    }
  }

  // ---- reading the levels of a frame ----

  /** The recording from entry `base` on is that of the levels `all`. */
  predicate Plays(buf: seq<nat>, rawlen: nat, base: nat, t1: nat, all: seq<bool>) {
    && t1 >= MARK_EXCESS && base % 2 == 1 && all != [] && all[0]
    && Reads(buf, rawlen, base, Runs(Trim(all)), t1)
  }

  /** Where the level reader stands after `k` levels. */
  function After(base: nat, all: seq<bool>, k: nat): Position {
    PositionOf(Runs(Trim(all)), base, k)
  }

  lemma LevelOf(buf: seq<nat>, rawlen: nat, base: nat, t1: nat, all: seq<bool>, k: nat)
    requires Plays(buf, rawlen, base, t1, all)
    ensures rawlen <= |buf| && t1 >= MARK_EXCESS && After(base, all, k).used < 3
    ensures After(base, all, k).offset < rawlen <==> k < |Trim(all)|
    ensures k < |all| ==> RcLevel(buf, rawlen, After(base, all, k), t1) == (Some(all[k]), After(base, all, k + 1))
  {
    var trimmed := Trim(all);
    var rs := Runs(trimmed);
    assert trimmed != [] ==> trimmed[0];
    hide Runs, Trim, Avail, RcLevel, Reads;
    BlocksOfRuns(trimmed);
    LevelAt(buf, rawlen, base, rs, t1, k);
  }

  lemma OneBitAt(bits: seq<bool>, count: nat, markFirst: bool, wide: Option<nat>, all: seq<bool>, k: nat)
    requires bits != [] && k <= |all| && all[k..] == BitLevels(bits, count, markFirst, wide)
    ensures var first, w := bits[0] == markFirst, if wide == Some(count) then 2 else 1;
            && k + 2 * w <= |all|
            && all[k] == first && all[k + w - 1] == first && all[k + w] == !first && all[k + 2 * w - 1] == !first
            && all[k + 2 * w..] == BitLevels(bits[1..], count + 1, markFirst, wide)
  {
    var one := OneBit(bits[0] == markFirst, wide == Some(count));
    var rest := BitLevels(bits[1..], count + 1, markFirst, wide);
    hide BitLevels;
    assert all[k..] == one + rest by { BitLevelsFirst(bits, count, markFirst, wide); }
    assert all[k..][|one|..] == rest;
    assert forall i :: 0 <= i < |one| ==> all[k + i] == all[k..][i];
    assert all[k + 0] == one[0] && all[k + 1] == one[1];
  }

  lemma NarrowBitRead(buf: seq<nat>, rawlen: nat, base: nat, t1: nat, all: seq<bool>, k: nat)
    requires Plays(buf, rawlen, base, t1, all) && k + 2 <= |all| && all[k + 1] == !all[k]
    ensures rawlen <= |buf| && t1 >= MARK_EXCESS
    ensures RcBit(buf, rawlen, After(base, all, k), t1, 1) == Some((all[k], After(base, all, k + 2)))
  {
    hide RcLevel, RcBit, After, Plays;
    LevelOf(buf, rawlen, base, t1, all, k);
    LevelOf(buf, rawlen, base, t1, all, k + 1);
    RcBitLevels(buf, rawlen, After(base, all, k), t1);
  }

  lemma WideBitRead(buf: seq<nat>, rawlen: nat, base: nat, t1: nat, all: seq<bool>, k: nat)
    requires Plays(buf, rawlen, base, t1, all) && k + 4 <= |all|
    requires all[k + 1] == all[k] && all[k + 2] == !all[k] && all[k + 3] == !all[k]
    ensures rawlen <= |buf| && t1 >= MARK_EXCESS
    ensures RcBit(buf, rawlen, After(base, all, k), t1, 2) == Some((all[k], After(base, all, k + 4)))
  {
    hide RcLevel, RcBit, After, Plays;
    LevelOf(buf, rawlen, base, t1, all, k);
    LevelOf(buf, rawlen, base, t1, all, k + 1);
    LevelOf(buf, rawlen, base, t1, all, k + 2);
    LevelOf(buf, rawlen, base, t1, all, k + 3);
    WideBitLevels(buf, rawlen, After(base, all, k), t1);
  }

  lemma NotTrimmed(all: seq<bool>, j: nat)
    requires j < |all| && all[j]
    ensures j < |Trim(all)|
  {
  }

  /** One bit of the frame, at level `k`. */
  lemma BitRead(buf: seq<nat>, rawlen: nat, base: nat, t1: nat, all: seq<bool>, k: nat,
                bits: seq<bool>, count: nat, markFirst: bool, wide: Option<nat>)
    requires Plays(buf, rawlen, base, t1, all) && bits != []
    requires k <= |all| && all[k..] == BitLevels(bits, count, markFirst, wide)
    ensures rawlen <= |buf| && t1 >= MARK_EXCESS && After(base, all, k).offset < rawlen
    ensures var w := if wide == Some(count) then 2 else 1;
            && k + 2 * w <= |all| && all[k + 2 * w..] == BitLevels(bits[1..], count + 1, markFirst, wide)
            && RcBit(buf, rawlen, After(base, all, k), t1, w) ==
               Some((bits[0] == markFirst, After(base, all, k + 2 * w)))
  {
    hide RcBit, After, Plays, BitLevels;
    OneBitAt(bits, count, markFirst, wide, all, k);
    var w := if wide == Some(count) then 2 else 1;
    NotTrimmed(all, if all[k] then k else k + w);
    LevelOf(buf, rawlen, base, t1, all, k);
    if w == 2 {
      WideBitRead(buf, rawlen, base, t1, all, k);
    } else {
      NarrowBitRead(buf, rawlen, base, t1, all, k);
    }
  }

  /** The bit loop reads back the bits that the levels were made of, and stops. */
  lemma {:induction false} BitsRead(buf: seq<nat>, rawlen: nat, base: nat, t1: nat, all: seq<bool>, k: nat,
                                    bits: seq<bool>, markFirst: bool, wide: Option<nat>, b: Bits)
    requires Plays(buf, rawlen, base, t1, all)
    requires k <= |all| && all[k..] == BitLevels(bits, b.count, markFirst, wide)
    ensures rawlen <= |buf| && t1 >= MARK_EXCESS && After(base, all, k).used < 3
    ensures RcBits(buf, rawlen, After(base, all, k), t1, markFirst, wide, b) ==
            Some(Bits(b.count + |bits|, ShiftedIn(b.data, bits, WORD32)))
    decreases |bits|
  {
    hide RcBit, After, Plays, BitLevels;
    LevelOf(buf, rawlen, base, t1, all, k);
    if bits == [] {
      NoBits(b.count, markFirst, wide);
      assert k == |all|;
    } else {
      BitRead(buf, rawlen, base, t1, all, k, bits, b.count, markFirst, wide);
      var w := if wide == Some(b.count) then 2 else 1;
      BitsRead(buf, rawlen, base, t1, all, k + 2 * w, bits[1..], markFirst, wide, WithBit(b, bits[0]));
      LoopStep(buf, rawlen, After(base, all, k), After(base, all, k + 2 * w), t1, markFirst, wide, b, bits[0]);
      assert WithBit(b, bits[0]) == Bits(b.count + 1, (b.data * 2 + Bit(bits[0])) % WORD32);
    }
  }

  lemma LoopStep(buf: seq<nat>, rawlen: nat, at: Position, at': Position, t1: nat, markFirst: bool, wide: Option<nat>,
                 b: Bits, one: bool)
    requires rawlen <= |buf| && t1 >= MARK_EXCESS && at.used < 3 && at'.used < 3 && at.offset < rawlen
    requires RcBit(buf, rawlen, at, t1, if wide == Some(b.count) then 2 else 1) == Some((one == markFirst, at'))
    ensures RcBits(buf, rawlen, at, t1, markFirst, wide, b) ==
            RcBits(buf, rawlen, at', t1, markFirst, wide, WithBit(b, one))
  {
    hide RcBit;
    assert ((one == markFirst) == markFirst) == one;
    RcBitAdvances(buf, rawlen, at, t1, if wide == Some(b.count) then 2 else 1);
  }

  // ---- RC5 ----

  lemma Rc5Plays(buf: seq<nat>, bits: seq<bool>, lag: nat -> nat, counts: seq<nat>)
    requires UsualLag(lag) && InBuffer(buf, counts)
    requires Recording(UpToLastMark(Widths(Rc5Frame(bits))), lag, counts)
    ensures Plays(buf, |counts| + 1, 1, RC5_T1, Rc5Levels(bits))
    ensures |counts| + 1 == Rc5Entries(bits)
  {
    var all := Rc5Levels(bits);
    assert all[0];
    hide Widths, Runs, Recording, InBuffer, Scaled, Rc5Frame, AtMost, Trim, Rc5Levels, Reads, Rc5Entries, UpToLastMark;
    Rc5Recorded(bits);
    Rc5RunsTrimmed(bits);
    var rs := Runs(Trim(all));
    Rc5Reads(buf, rs, counts, lag);
    RecordingLength(Scaled(RC5_T1, rs), lag, counts, buf);
    ScaledLength(RC5_T1, rs);
  }

  /** What is recorded of an RC5 frame. */
  lemma Rc5Recorded(bits: seq<bool>)
    ensures UpToLastMark(Widths(Rc5Frame(bits))) == Scaled(RC5_T1, Runs(Trim(Rc5Levels(bits))))
  {
    var all := Rc5Levels(bits);
    assert all[0];
    hide Widths, Runs, Scaled, Rc5Frame, Trim, Rc5Levels;
    Rc5Widths(bits);
    var rs := Runs(Trim(all));
    assert [] + Scaled(RC5_T1, Runs(all)) == Scaled(RC5_T1, Runs(all)) && [] + Scaled(RC5_T1, rs) == Scaled(RC5_T1, rs);
    TrimmedWidths([], RC5_T1, all);
  }

  lemma Rc5RunsTrimmed(bits: seq<bool>)
    ensures AtMost(Runs(Trim(Rc5Levels(bits))), 2)
    ensures |Runs(Trim(Rc5Levels(bits)))| + 1 == Rc5Entries(bits)
  {
    hide Runs, Trim, Rc5Levels, Repeats, Last;
    Rc5Runs(bits);
    TrimKeepsRuns(Rc5Levels(bits), 2);
  }

  /** Trimming drops the last run if it is a space. */
  lemma TrimKeepsRuns(all: seq<bool>, m: nat)
    requires all != [] && AtMost(Runs(all), m)
    ensures AtMost(Runs(Trim(all)), m)
    ensures |Runs(Trim(all))| == |Runs(all)| - if all[|all| - 1] then 0 else 1
  {
    if !all[|all| - 1] {
      hide Runs;
      TrimDropsLastRun(all);
    }
  }

  lemma LevelsAfter(start: seq<bool>, rest: seq<bool>)
    ensures (start + rest)[|start|..] == rest
  {
  }

  lemma Rc5Start(buf: seq<nat>, rawlen: nat, all: seq<bool>)
    requires Plays(buf, rawlen, 1, RC5_T1, all) && |all| >= 3 && all[0] && !all[1] && all[2]
    ensures rawlen <= |buf|
    ensures Expect(buf, rawlen, Position(1, 0), RC5_T1, [true, false, true]) == Some(After(1, all, 3))
  {
    StartsAt(buf, rawlen, 1, RC5_T1, all);
    hide After, RcLevel, Plays, Expect;
    LevelOf(buf, rawlen, 1, RC5_T1, all, 0);
    LevelOf(buf, rawlen, 1, RC5_T1, all, 1);
    LevelOf(buf, rawlen, 1, RC5_T1, all, 2);
    ExpectThree(buf, rawlen, Position(1, 0), RC5_T1, true, false, true);
  }

  lemma Rc5Levels012(bits: seq<bool>)
    ensures var all := Rc5Levels(bits);
            |all| >= 3 && all[0] && !all[1] && all[2] && all[3..] == BitLevels(bits, 0, false, None)
  {
    hide BitLevels;
    LevelsAfter([true, false, true], BitLevels(bits, 0, false, None));
  }

  lemma Rc5Stream(buf: seq<nat>, rawlen: nat, bits: seq<bool>)
    requires Plays(buf, rawlen, 1, RC5_T1, Rc5Levels(bits)) && |buf| == RAWBUF && 13 <= rawlen <= RAWBUF
    ensures Rc5Result(buf, rawlen) == Some(Results(RC5, |bits|, ShiftedIn(0, bits, WORD32), 0))
  {
    hide After, RcLevel, RcBits, Plays, Expect, BitLevels, Rc5Levels;
    var all := Rc5Levels(bits);
    Rc5Levels012(bits);
    Rc5Start(buf, rawlen, all);
    BitsRead(buf, rawlen, 1, RC5_T1, all, 3, bits, false, None, Bits(0, 0));
  }

  /** The decoder returns the bits sent, if there are enough entries. */
  lemma Rc5Read(buf: seq<nat>, bits: seq<bool>, lag: nat -> nat, counts: seq<nat>)
    requires UsualLag(lag) && InBuffer(buf, counts)
    requires Recording(UpToLastMark(Widths(Rc5Frame(bits))), lag, counts)
    ensures |buf| == RAWBUF && |counts| + 1 <= RAWBUF
    ensures Rc5Result(buf, |counts| + 1) ==
            if |counts| + 1 < 13 then None else Some(Results(RC5, |bits|, ShiftedIn(0, bits, WORD32), 0))
  {
    hide *;
    BufferLength(buf, counts);
    if |counts| + 1 < 13 {
      TooFewForRc5(buf, |counts| + 1);
    } else {
      Rc5Plays(buf, bits, lag, counts);
      Rc5Stream(buf, |counts| + 1, bits);
    }
  }

  lemma TooFewForRc5(buf: seq<nat>, rawlen: nat)
    requires |buf| == RAWBUF && rawlen < 13
    ensures Rc5Result(buf, rawlen) == None
  {
  }

  lemma StartsAt(buf: seq<nat>, rawlen: nat, base: nat, t1: nat, all: seq<bool>)
    requires Plays(buf, rawlen, base, t1, all)
    ensures After(base, all, 0) == Position(base, 0)
  {
    hide Runs, Avail;
    StartOf(buf, rawlen, base, Runs(Trim(all)), t1);
  }

  /** The entries of a recorded RC5 frame, the gap included: one for each bit, and one more for each bit that repeats
      the one before, the first bit being compared with the start bit 1. A last space is not recorded. */
  function Rc5Entries(bits: seq<bool>): nat {
    |bits| + Repeats(bits) + if Last(bits) then 4 else 3
  }

  /** Four bits are never enough for the 13 entries that the decoder asks for, ten always are. */
  lemma Rc5EntriesBounds(bits: seq<bool>)
    ensures |bits| + 3 <= Rc5Entries(bits) <= 2 * |bits| + 4
  {
    RepeatsBound(bits);
  }

  lemma {:induction false} RepeatedOnes(n: nat)
    ensures var bits := seq(n, _ => true); Repeats(bits) == n && Last(bits)
    decreases n
  {
    if n > 0 {
      RepeatedOnes(n - 1);
      assert seq(n, _ => true) == seq(n - 1, _ => true) + [true];
      RepeatsSnoc(seq(n - 1, _ => true), true);
    }
  }

  /** 0, 1, 0, 1, and so on. */
  function Alternating(n: nat): seq<bool> {
    seq(n, i => i % 2 == 1)
  }

  lemma {:induction false} AlternatingNeverRepeats(n: nat)
    ensures Repeats(Alternating(n)) == 0 && Last(Alternating(n)) == (n % 2 == 0)
    decreases n
  {
    if n > 0 {
      AlternatingNeverRepeats(n - 1);
      assert Alternating(n) == Alternating(n - 1) + [(n - 1) % 2 == 1];
      RepeatsSnoc(Alternating(n - 1), (n - 1) % 2 == 1);
    }
  }

  /** From five to nine bits it depends on the word: ones come back, alternating bits do not. */
  lemma Rc5DependsOnWord(n: nat)
    requires 5 <= n <= 9
    ensures Rc5Entries(seq(n, _ => true)) >= 13 && Rc5Entries(Alternating(n)) < 13
  {
    hide Repeats, Last, Alternating;
    RepeatedOnes(n);
    AlternatingNeverRepeats(n);
    AlternatingLength(n);
  }

  lemma AlternatingLength(n: nat)
    ensures |Alternating(n)| == n
  {
  }

  // ---- RC6 ----

  /** What is recorded of an RC6 frame. */
  lemma Rc6Recorded(bits: seq<bool>)
    ensures UpToLastMark(Widths(Rc6Frame(bits))) == [2666, 889] + Scaled(RC6_T1, Runs(Trim(Rc6Levels(bits))))
  {
    assert Rc6Levels(bits)[0];
    hide Widths, Runs, Scaled, Rc6Frame, Trim, Rc6Levels;
    Rc6Widths(bits);
    TrimmedWidths([2666, 889], RC6_T1, Rc6Levels(bits));
  }

  lemma Rc6RunsTrimmed(bits: seq<bool>)
    ensures AtMost(Runs(Trim(Rc6Levels(bits))), 3)
    ensures |Runs(Trim(Rc6Levels(bits)))| + 3 == Rc6Entries(bits)
  {
    hide Runs, Trim, Rc6Levels, Repeats, Last;
    Rc6Runs(bits);
    TrimKeepsRuns(Rc6Levels(bits), 3);
  }

  lemma Rc6Plays(buf: seq<nat>, bits: seq<bool>, lag: nat -> nat, counts: seq<nat>)
    requires UsualLag(lag) && InBuffer(buf, counts)
    requires Recording(UpToLastMark(Widths(Rc6Frame(bits))), lag, counts)
    ensures Plays(buf, |counts| + 1, 3, RC6_T1, Rc6Levels(bits))
    ensures |counts| + 1 == Rc6Entries(bits)
  {
    var all := Rc6Levels(bits);
    assert all[0];
    hide Widths, Runs, Recording, InBuffer, Scaled, Rc6Frame, AtMost, Trim, Rc6Levels, Reads, Rc6Entries, UpToLastMark;
    Rc6Recorded(bits);
    Rc6RunsTrimmed(bits);
    var rs := Runs(Trim(all));
    Rc6Reads(buf, rs, counts, lag);
    RecordingLength([2666, 889] + Scaled(RC6_T1, rs), lag, counts, buf);
    ScaledLength(RC6_T1, rs);
  }

  /** The header of RC6 as recorded. */
  lemma Rc6HeaderRead(buf: seq<nat>, bits: seq<bool>, lag: nat -> nat, counts: seq<nat>)
    requires UsualLag(lag) && InBuffer(buf, counts)
    requires Recording(UpToLastMark(Widths(Rc6Frame(bits))), lag, counts)
    ensures |buf| == RAWBUF && Entry(buf, 1, 2666, lag) && Entry(buf, 2, 889, lag)
  {
    hide Widths, Recording, InBuffer, Runs, Trim, Rc6Levels, Rc6Frame, UpToLastMark, Scaled;
    BufferLength(buf, counts);
    Rc6Recorded(bits);
    var ws := [2666, 889] + Scaled(RC6_T1, Runs(Trim(Rc6Levels(bits))));
    EntrySeen(buf, ws, lag, counts, 1);
    EntrySeen(buf, ws, lag, counts, 2);
  }

  lemma Rc6HeaderMatches(buf: seq<nat>, lag: nat -> nat)
    requires UsualLag(lag) && |buf| == RAWBUF && Entry(buf, 1, 2666, lag) && Entry(buf, 2, 889, lag)
    ensures MatchMark(buf[1], 2666) && MatchSpace(buf[2], 889)
  {
    hide MatchMark, MatchSpace;
    MarkMatches(2666, lag(0), buf[1]);
    SpaceMatches(889, lag(1), buf[2]);
  }

  lemma Rc6Start(buf: seq<nat>, rawlen: nat, all: seq<bool>)
    requires Plays(buf, rawlen, 3, RC6_T1, all) && |all| >= 2 && all[0] && !all[1]
    ensures rawlen <= |buf|
    ensures Expect(buf, rawlen, Position(3, 0), RC6_T1, [true, false]) == Some(After(3, all, 2))
  {
    StartsAt(buf, rawlen, 3, RC6_T1, all);
    hide After, RcLevel, Plays, Expect;
    LevelOf(buf, rawlen, 3, RC6_T1, all, 0);
    LevelOf(buf, rawlen, 3, RC6_T1, all, 1);
    ExpectTwo(buf, rawlen, Position(3, 0), RC6_T1, true, false);
  }

  lemma Rc6Levels01(bits: seq<bool>)
    ensures var all := Rc6Levels(bits);
            |all| >= 2 && all[0] && !all[1] && all[2..] == BitLevels(bits, 0, true, Some(3))
  {
    hide BitLevels;
    LevelsAfter([true, false], BitLevels(bits, 0, true, Some(3)));
  }

  lemma Rc6Stream(buf: seq<nat>, rawlen: nat, bits: seq<bool>)
    requires Plays(buf, rawlen, 3, RC6_T1, Rc6Levels(bits)) && |buf| == RAWBUF && 1 <= rawlen <= RAWBUF
    requires MatchMark(buf[1], 2666) && MatchSpace(buf[2], 889)
    ensures Rc6Result(buf, rawlen) == Some(Results(RC6, |bits|, ShiftedIn(0, bits, WORD32), 0))
  {
    hide After, RcLevel, RcBits, Plays, Expect, BitLevels, Rc6Levels, MatchMark, MatchSpace;
    var all := Rc6Levels(bits);
    Rc6Levels01(bits);
    Rc6Start(buf, rawlen, all);
    BitsRead(buf, rawlen, 3, RC6_T1, all, 2, bits, true, Some(3), Bits(0, 0));
  }

  /** The decoder returns the bits sent, whatever their number. */
  lemma Rc6Read(buf: seq<nat>, bits: seq<bool>, lag: nat -> nat, counts: seq<nat>)
    requires UsualLag(lag) && InBuffer(buf, counts)
    requires Recording(UpToLastMark(Widths(Rc6Frame(bits))), lag, counts)
    ensures |buf| == RAWBUF && |counts| + 1 <= RAWBUF
    ensures Rc6Result(buf, |counts| + 1) == Some(Results(RC6, |bits|, ShiftedIn(0, bits, WORD32), 0))
  {
    hide *;
    BufferLength(buf, counts);
    Rc6HeaderRead(buf, bits, lag, counts);
    Rc6HeaderMatches(buf, lag);
    Rc6Plays(buf, bits, lag, counts);
    Rc6Stream(buf, |counts| + 1, bits);
  }

  /** The entries of a recorded RC6 frame, the gap and the header included, counted as for RC5. */
  function Rc6Entries(bits: seq<bool>): nat {
    |bits| + Repeats(bits) + if Last(bits) then 4 else 5
  }

  lemma Rc6EntriesBounds(bits: seq<bool>)
    ensures |bits| + 4 <= Rc6Entries(bits) <= 2 * |bits| + 5
  {
    RepeatsBound(bits);
  }
}
