/** Exactly what the Manchester decoders accept: the recordings of frames of their own, and no others. */
module IrLevels {
  import opened Arithmetic
  import opened Options
  import opened IrSignal
  import opened IrSampler
  import opened IrDecoders
  import opened IrWords
  import opened IrManchester
  import opened IrRc

  /** Multiples of the interval of RC5, from one to three, in ticks; the windows of two and three overlap. */
  lemma Rc5Windows(ticks: nat)
    ensures Avail(ticks, true, 889) ==
            if 14 <= ticks <= 25 then 1 else if 28 <= ticks <= 47 then 2 else if 48 <= ticks <= 70 then 3 else 0
    ensures Avail(ticks, false, 889) ==
            if 11 <= ticks <= 20 then 1 else if 25 <= ticks <= 42 then 2 else if 43 <= ticks <= 65 then 3 else 0
  {
    Threshold(ticks, 989);
    Threshold(ticks, 1878);
    Threshold(ticks, 2767);
    Threshold(ticks, 789);
    Threshold(ticks, 1678);
    Threshold(ticks, 2567);
    hide Match;
  }

  lemma Rc6Windows(ticks: nat)
    ensures Avail(ticks, true, 444) ==
            if 8 <= ticks <= 14 then 1 else if 15 <= ticks <= 25 then 2 else if 26 <= ticks <= 36 then 3 else 0
    ensures Avail(ticks, false, 444) ==
            if 5 <= ticks <= 9 then 1 else if 11 <= ticks <= 20 then 2 else if 21 <= ticks <= 31 then 3 else 0
  {
    Threshold(ticks, 544);
    Threshold(ticks, 988);
    Threshold(ticks, 1432);
    Threshold(ticks, 344);
    Threshold(ticks, 788);
    Threshold(ticks, 1232);
    hide Match;
  }

  lemma Threshold(ticks: nat, us: nat)
    ensures Match(ticks, us) <==> us * 3 / 200 <= ticks <= us / 40 + 1
  {
  }

  // ---- the levels of a recording ----

  /** How many intervals each entry from `base` on lasts. */
  function Intervals(buf: seq<nat>, rawlen: nat, base: nat, t1: nat): (rs: seq<nat>)
    requires t1 >= MARK_EXCESS && base <= rawlen <= |buf|
    ensures |rs| == rawlen - base
    decreases rawlen - base
  {
    if base == rawlen then [] else [Avail(buf[base], base % 2 == 1, t1)] + Intervals(buf, rawlen, base + 1, t1)
  }

  lemma {:induction false} IntervalsAt(buf: seq<nat>, rawlen: nat, base: nat, t1: nat, i: nat)
    requires t1 >= MARK_EXCESS && base + i < rawlen <= |buf|
    ensures Intervals(buf, rawlen, base, t1)[i] == Avail(buf[base + i], (base + i) % 2 == 1, t1)
    decreases i
  {
    hide Avail;
    if i > 0 {
      IntervalsAt(buf, rawlen, base + 1, t1, i - 1);
      assert base + 1 + (i - 1) == base + i;
    }
  }

  /** If every entry lasts a number of intervals, those are what the level reader reads. */
  lemma IntervalsRead(buf: seq<nat>, rawlen: nat, base: nat, t1: nat)
    requires t1 >= MARK_EXCESS && base <= rawlen <= |buf|
    requires forall i :: 0 <= i < rawlen - base ==> Intervals(buf, rawlen, base, t1)[i] >= 1
    ensures Reads(buf, rawlen, base, Intervals(buf, rawlen, base, t1), t1)
  {
    hide Avail, Intervals;
    var rs := Intervals(buf, rawlen, base, t1);
    forall i | 0 <= i < |rs| ensures 1 <= rs[i] <= 3 && Avail(buf[base + i], (base + i) % 2 == 1, t1) == rs[i] {
      IntervalsAt(buf, rawlen, base, t1, i);
      AtMostThree(buf[base + i], (base + i) % 2 == 1, t1);
    }
  }

  lemma AtMostThree(width: nat, mark: bool, t1: nat)
    requires t1 >= MARK_EXCESS
    ensures Avail(width, mark, t1) <= 3
  {
  }

  /** Level number `k`; after the end there is space. */
  predicate LevelAfter(levels: seq<bool>, k: nat) {
    k < |levels| && levels[k]
  }

  /** From number `k` on, the levels are `more`, and then space. */
  predicate Follows(levels: seq<bool>, k: nat, more: seq<bool>) {
    |levels| <= k + |more| && forall i | 0 <= i < |more| :: more[i] == LevelAfter(levels, k + i)
  }

  /** Every entry from `base` on lasts a number of intervals, and their levels are `all`, of which space may be missing at
      the end. */
  predicate RecordsLevels(buf: seq<nat>, rawlen: nat, base: nat, t1: nat, all: seq<bool>)
    requires t1 >= MARK_EXCESS && base <= rawlen <= |buf|
  {
    var rs := Intervals(buf, rawlen, base, t1);
    (forall i | 0 <= i < |rs| :: rs[i] >= 1) && Follows(Blocks(rs, base % 2 == 1), 0, all)
  }

  lemma FollowsRest(levels: seq<bool>, k: nat, a: seq<bool>, b: seq<bool>)
    requires Follows(levels, k + |a|, b)
    requires forall i :: 0 <= i < |a| ==> a[i] == LevelAfter(levels, k + i)
    ensures Follows(levels, k, a + b)
  {
    hide LevelAfter;
    forall i | 0 <= i < |a + b| ensures (a + b)[i] == LevelAfter(levels, k + i) {
      if i >= |a| {
        assert (a + b)[i] == b[i - |a|] == LevelAfter(levels, k + |a| + (i - |a|));
      }
    }
  }

  lemma FollowsSplit(levels: seq<bool>, k: nat, a: seq<bool>, b: seq<bool>)
    requires Follows(levels, k, a + b)
    ensures Follows(levels, k + |a|, b)
    ensures forall i :: 0 <= i < |a| ==> a[i] == LevelAfter(levels, k + i)
  {
    hide LevelAfter;
    forall i | 0 <= i < |a| ensures a[i] == LevelAfter(levels, k + i) {
      assert (a + b)[i] == a[i];
    }
    forall i | 0 <= i < |b| ensures b[i] == LevelAfter(levels, k + |a| + i) {
      assert (a + b)[|a| + i] == b[i] && k + (|a| + i) == k + |a| + i;
    }
  }

  // ---- an entry that is no number of intervals stops the decoder ----

  predicate Stuck(buf: seq<nat>, rawlen: nat, e: nat, t1: nat)
    requires t1 >= MARK_EXCESS
  {
    e < rawlen <= |buf| && Avail(buf[e], e % 2 == 1, t1) == 0
  }

  lemma StuckLevel(buf: seq<nat>, rawlen: nat, e: nat, at: Position, t1: nat)
    requires t1 >= MARK_EXCESS && Stuck(buf, rawlen, e, t1) && at.offset <= e
    ensures var (l, at') := RcLevel(buf, rawlen, at, t1); l.Some? ==> at'.offset <= e
  {
    hide Avail;
  }

  lemma {:induction false} StuckLevels(buf: seq<nat>, rawlen: nat, e: nat, at: Position, t1: nat, level: bool, n: nat)
    requires t1 >= MARK_EXCESS && Stuck(buf, rawlen, e, t1) && at.offset <= e
    ensures var r := SameLevels(buf, rawlen, at, t1, level, n); r.Some? ==> r.value.offset <= e
    decreases n
  {
    if n > 0 {
      hide RcLevel;
      StuckLevel(buf, rawlen, e, at, t1);
      var (l, at') := RcLevel(buf, rawlen, at, t1);
      if l == Some(level) {
        StuckLevels(buf, rawlen, e, at', t1, level, n - 1);
      }
    }
  }

  lemma StuckBit(buf: seq<nat>, rawlen: nat, e: nat, at: Position, t1: nat, k: nat)
    requires t1 >= MARK_EXCESS && Stuck(buf, rawlen, e, t1) && at.offset <= e && k > 0
    ensures var r := RcBit(buf, rawlen, at, t1, k); r.Some? ==> r.value.1.offset <= e
  {
    var (l, _) := RcLevel(buf, rawlen, at, t1);
    hide RcLevel, SameLevels;
    if l.Some? {
      StuckLevels(buf, rawlen, e, at, t1, l.value, k);
      var mid := SameLevels(buf, rawlen, at, t1, l.value, k);
      if mid.Some? {
        StuckLevels(buf, rawlen, e, mid.value, t1, !l.value, k);
      }
    }
  }

  lemma {:induction false} StuckBits(buf: seq<nat>, rawlen: nat, e: nat, at: Position, t1: nat, markFirst: bool,
                                     wide: Option<nat>, b: Bits)
    requires t1 >= MARK_EXCESS && Stuck(buf, rawlen, e, t1) && at.offset <= e && at.used < 3
    ensures RcBits(buf, rawlen, at, t1, markFirst, wide, b) == None
    decreases rawlen - at.offset, 3 - at.used
  {
    hide RcLevel, RcBit;
    var k := if wide == Some(b.count) then 2 else 1;
    RcBitAdvances(buf, rawlen, at, t1, k);
    StuckBit(buf, rawlen, e, at, t1, k);
    var r := RcBit(buf, rawlen, at, t1, k);
    if r.Some? {
      StuckBits(buf, rawlen, e, r.value.1, t1, markFirst, wide, WithBit(b, r.value.0 == markFirst));
    }
  }

  // ---- the bit loop ----

  /** The levels from entry `base` on. */
  function LevelsIn(buf: seq<nat>, rawlen: nat, base: nat, t1: nat): seq<bool>
    requires t1 >= MARK_EXCESS && base <= rawlen <= |buf|
  {
    Blocks(Intervals(buf, rawlen, base, t1), base % 2 == 1)
  }

  /** Where the level reader stands after `k` of them. */
  function Place(buf: seq<nat>, rawlen: nat, base: nat, t1: nat, k: nat): Position
    requires t1 >= MARK_EXCESS && base <= rawlen <= |buf|
  {
    PositionOf(Intervals(buf, rawlen, base, t1), base, k)
  }

  predicate AllWhole(buf: seq<nat>, rawlen: nat, base: nat, t1: nat)
    requires t1 >= MARK_EXCESS && base <= rawlen <= |buf|
  {
    forall i | 0 <= i < rawlen - base :: Intervals(buf, rawlen, base, t1)[i] >= 1
  }

  lemma LevelFound(buf: seq<nat>, rawlen: nat, base: nat, t1: nat, k: nat)
    requires t1 >= MARK_EXCESS && base <= rawlen <= |buf| && AllWhole(buf, rawlen, base, t1)
    ensures var levels, at := LevelsIn(buf, rawlen, base, t1), Place(buf, rawlen, base, t1, k);
            && at.used < 3 && (at.offset < rawlen <==> k < |levels|)
            && RcLevel(buf, rawlen, at, t1) == (Some(LevelAfter(levels, k)), Place(buf, rawlen, base, t1, k + 1))
  {
    hide Avail, RcLevel, Intervals, Blocks, PositionOf, Reads;
    IntervalsRead(buf, rawlen, base, t1);
    LevelAt(buf, rawlen, base, Intervals(buf, rawlen, base, t1), t1, k);
  }

  /** The bit at level `k`, if there is one. */
  lemma BitFound(buf: seq<nat>, rawlen: nat, base: nat, t1: nat, k: nat, wide: bool)
    requires t1 >= MARK_EXCESS && base <= rawlen <= |buf| && AllWhole(buf, rawlen, base, t1)
    ensures var levels, first := LevelsIn(buf, rawlen, base, t1), LevelAfter(LevelsIn(buf, rawlen, base, t1), k);
            var n := |OneBit(first, wide)|;
            RcBit(buf, rawlen, Place(buf, rawlen, base, t1, k), t1, if wide then 2 else 1) ==
            if forall i :: 0 <= i < n ==> OneBit(first, wide)[i] == LevelAfter(levels, k + i)
            then Some((first, Place(buf, rawlen, base, t1, k + n))) else None
  {
    hide RcLevel, RcBit, LevelsIn, Place, AllWhole, LevelAfter;
    LevelFound(buf, rawlen, base, t1, k);
    LevelFound(buf, rawlen, base, t1, k + 1);
    OneBitFollows(LevelsIn(buf, rawlen, base, t1), k, wide);
    if wide {
      LevelFound(buf, rawlen, base, t1, k + 2);
      LevelFound(buf, rawlen, base, t1, k + 3);
      WideBitLevels(buf, rawlen, Place(buf, rawlen, base, t1, k), t1);
    } else {
      RcBitLevels(buf, rawlen, Place(buf, rawlen, base, t1, k), t1);
    }
  }

  /** Two levels that differ, or two and two. */
  lemma OneBitFollows(levels: seq<bool>, k: nat, wide: bool)
    ensures var bit := OneBit(LevelAfter(levels, k), wide);
            && |bit| == (if wide then 4 else 2)
            && ((forall i :: 0 <= i < |bit| ==> bit[i] == LevelAfter(levels, k + i)) <==>
                var first := LevelAfter(levels, k);
                if wide then LevelAfter(levels, k + 1) == first && LevelAfter(levels, k + 2) == !first == LevelAfter(levels, k + 3)
                else LevelAfter(levels, k + 1) == !first)
  {
    hide LevelAfter;
    var bit := OneBit(LevelAfter(levels, k), wide);
    assert bit[0] == LevelAfter(levels, k + 0);
    assert wide ==> bit[1] == LevelAfter(levels, k) && bit[2] == !bit[1] == bit[3];
    assert !wide ==> bit[1] == !LevelAfter(levels, k);
  }

  /** Bits that come in are read, and nothing is left. */
  lemma {:induction false} BitsTaken(buf: seq<nat>, rawlen: nat, base: nat, t1: nat, k: nat, bits: seq<bool>, markFirst: bool,
                                     wide: Option<nat>, b: Bits)
    requires t1 >= MARK_EXCESS && base <= rawlen <= |buf| && AllWhole(buf, rawlen, base, t1)
    requires Follows(LevelsIn(buf, rawlen, base, t1), k, BitLevels(bits, b.count, markFirst, wide))
    ensures Place(buf, rawlen, base, t1, k).used < 3
    ensures RcBits(buf, rawlen, Place(buf, rawlen, base, t1, k), t1, markFirst, wide, b) ==
            Some(Bits(b.count + |bits|, ShiftedIn(b.data, bits, WORD32)))
    decreases |bits|
  {
    hide *;
    LevelFound(buf, rawlen, base, t1, k);
    var levels := LevelsIn(buf, rawlen, base, t1);
    if bits == [] {
      NoBits(b.count, markFirst, wide);
      NothingFollows(levels, k);
      CountNone(b);
      LoopEnds(buf, rawlen, Place(buf, rawlen, base, t1, k), t1, markFirst, wide, b);
    } else {
      var first, w := bits[0] == markFirst, wide == Some(b.count);
      var one, rest := OneBit(first, w), BitLevels(bits[1..], b.count + 1, markFirst, wide);
      BitLevelsFirst(bits, b.count, markFirst, wide);
      FollowsSplit(levels, k, one, rest);
      BitStarts(levels, k, first, w);
      BitFound(buf, rawlen, base, t1, k, w);
      CountOne(b, bits);
      BitsTaken(buf, rawlen, base, t1, k + |one|, bits[1..], markFirst, wide, WithBit(b, bits[0]));
      var at, at' := Place(buf, rawlen, base, t1, k), Place(buf, rawlen, base, t1, k + |one|);
      LoopStep(buf, rawlen, at, at', t1, markFirst, wide, b, bits[0]);
    }
  }

  lemma CountOne(b: Bits, bits: seq<bool>)
    requires bits != []
    ensures WithBit(b, bits[0]).count == b.count + 1
    ensures ShiftedIn(b.data, bits, WORD32) == ShiftedIn(WithBit(b, bits[0]).data, bits[1..], WORD32)
  {
  }

  lemma CountNone(b: Bits)
    ensures Bits(b.count + 0, ShiftedIn(b.data, [], WORD32)) == b
  {
  }

  lemma NothingFollows(levels: seq<bool>, k: nat)
    ensures Follows(levels, k, []) <==> |levels| <= k
  {
  }

  lemma LoopEnds(buf: seq<nat>, rawlen: nat, at: Position, t1: nat, markFirst: bool, wide: Option<nat>, b: Bits)
    requires rawlen <= |buf| && t1 >= MARK_EXCESS && at.used < 3 && at.offset >= rawlen
    ensures RcBits(buf, rawlen, at, t1, markFirst, wide, b) == Some(b)
  {
  }

  /** Every bit contains a mark, so it cannot lie behind the end. */
  lemma BitStarts(levels: seq<bool>, k: nat, first: bool, wide: bool)
    requires forall i :: 0 <= i < |OneBit(first, wide)| ==> OneBit(first, wide)[i] == LevelAfter(levels, k + i)
    ensures k < |levels| && LevelAfter(levels, k) == first
  {
    var bit := OneBit(first, wide);
    assert bit[0] == LevelAfter(levels, k + 0) && bit[if wide then 2 else 1] == !first;
    assert LevelAfter(levels, k + if wide then 2 else 1) == !first;
  }

  /** If the loop succeeds, bits came in. */
  lemma {:induction false} BitsFound(buf: seq<nat>, rawlen: nat, base: nat, t1: nat, k: nat, markFirst: bool, wide: Option<nat>,
                                     b: Bits) returns (bits: seq<bool>)
    requires t1 >= MARK_EXCESS && base <= rawlen <= |buf| && AllWhole(buf, rawlen, base, t1)
    requires Place(buf, rawlen, base, t1, k).used < 3
    requires RcBits(buf, rawlen, Place(buf, rawlen, base, t1, k), t1, markFirst, wide, b).Some?
    ensures Follows(LevelsIn(buf, rawlen, base, t1), k, BitLevels(bits, b.count, markFirst, wide))
    decreases |LevelsIn(buf, rawlen, base, t1)| - k
  {
    hide *;
    LevelFound(buf, rawlen, base, t1, k);
    var levels := LevelsIn(buf, rawlen, base, t1);
    if k >= |levels| {
      bits := [];
      NoBits(b.count, markFirst, wide);
      NothingFollows(levels, k);
    } else {
      var first, w := LevelAfter(levels, k), wide == Some(b.count);
      var one := OneBit(first, w);
      BitFound(buf, rawlen, base, t1, k, w);
      OneBitFollows(levels, k, w);
      LoopNeedsBit(buf, rawlen, Place(buf, rawlen, base, t1, k), t1, markFirst, wide, b);
      LevelFound(buf, rawlen, base, t1, k + |one|);
      var value := first == markFirst;
      var at, at' := Place(buf, rawlen, base, t1, k), Place(buf, rawlen, base, t1, k + |one|);
      LoopStep(buf, rawlen, at, at', t1, markFirst, wide, b, value);
      var rest := BitsFound(buf, rawlen, base, t1, k + |one|, markFirst, wide, WithBit(b, value));
      bits := [value] + rest;
      assert bits[1..] == rest;
      CountOne(b, bits);
      BitLevelsFirst(bits, b.count, markFirst, wide);
      FollowsRest(levels, k, one, BitLevels(rest, b.count + 1, markFirst, wide));
    }
  }

  lemma LoopNeedsBit(buf: seq<nat>, rawlen: nat, at: Position, t1: nat, markFirst: bool, wide: Option<nat>, b: Bits)
    requires rawlen <= |buf| && t1 >= MARK_EXCESS && at.used < 3 && at.offset < rawlen
    requires RcBits(buf, rawlen, at, t1, markFirst, wide, b).Some?
    ensures RcBit(buf, rawlen, at, t1, if wide == Some(b.count) then 2 else 1).Some?
  {
    hide RcBit;
  }

  // ---- the whole recording ----

  lemma PlaceZero(buf: seq<nat>, rawlen: nat, base: nat, t1: nat)
    requires t1 >= MARK_EXCESS && base <= rawlen <= |buf| && AllWhole(buf, rawlen, base, t1)
    ensures Place(buf, rawlen, base, t1, 0) == Position(base, 0)
  {
    hide Avail, Intervals, PositionOf, Reads;
    IntervalsRead(buf, rawlen, base, t1);
    StartOf(buf, rawlen, base, Intervals(buf, rawlen, base, t1), t1);
  }

  lemma RecordsMeans(buf: seq<nat>, rawlen: nat, base: nat, t1: nat, all: seq<bool>)
    requires t1 >= MARK_EXCESS && base <= rawlen <= |buf|
    ensures RecordsLevels(buf, rawlen, base, t1, all) <==>
            AllWhole(buf, rawlen, base, t1) && Follows(LevelsIn(buf, rawlen, base, t1), 0, all)
  {
    hide Intervals, Blocks, Follows;
  }

  lemma SomeStuck(buf: seq<nat>, rawlen: nat, base: nat, t1: nat) returns (e: nat)
    requires t1 >= MARK_EXCESS && base <= rawlen <= |buf| && !AllWhole(buf, rawlen, base, t1)
    ensures base <= e && Stuck(buf, rawlen, e, t1)
  {
    hide Intervals, Avail;
    var i :| 0 <= i < rawlen - base && Intervals(buf, rawlen, base, t1)[i] < 1;
    IntervalsAt(buf, rawlen, base, t1, i);
    e := base + i;
  }

  lemma {:induction false} StuckExpect(buf: seq<nat>, rawlen: nat, e: nat, at: Position, t1: nat, ls: seq<bool>)
    requires t1 >= MARK_EXCESS && Stuck(buf, rawlen, e, t1) && at.offset <= e && at.used < 3
    ensures var r := Expect(buf, rawlen, at, t1, ls); r.Some? ==> r.value.offset <= e && r.value.used < 3
    decreases |ls|
  {
    if ls != [] {
      hide RcLevel;
      StuckLevel(buf, rawlen, e, at, t1);
      LevelAdvances(buf, rawlen, at, t1);
      var (l, at') := RcLevel(buf, rawlen, at, t1);
      if l.Some? {
        StuckExpect(buf, rawlen, e, at', t1, ls[1..]);
      }
    }
  }

  /** The start of an RC5 frame. */
  lemma ThreeFound(buf: seq<nat>, rawlen: nat)
    requires 1 <= rawlen <= |buf| && AllWhole(buf, rawlen, 1, RC5_T1)
    ensures var levels := LevelsIn(buf, rawlen, 1, RC5_T1);
            Expect(buf, rawlen, Position(1, 0), RC5_T1, [true, false, true]) ==
            if LevelAfter(levels, 0) && !LevelAfter(levels, 1) && LevelAfter(levels, 2)
            then Some(Place(buf, rawlen, 1, RC5_T1, 3)) else None
  {
    hide Expect, AllWhole, LevelAfter, Place, LevelsIn, RcLevel;
    PlaceZero(buf, rawlen, 1, RC5_T1);
    LevelFound(buf, rawlen, 1, RC5_T1, 0);
    LevelFound(buf, rawlen, 1, RC5_T1, 1);
    LevelFound(buf, rawlen, 1, RC5_T1, 2);
    ExpectThree(buf, rawlen, Position(1, 0), RC5_T1, true, false, true);
  }

  lemma ThreeFollow(levels: seq<bool>, more: seq<bool>)
    ensures Follows(levels, 0, [true, false, true] + more) <==>
            LevelAfter(levels, 0) && !LevelAfter(levels, 1) && LevelAfter(levels, 2) && Follows(levels, 3, more)
  {
    var start := [true, false, true];
    hide LevelAfter, Follows;
    if Follows(levels, 0, start + more) {
      FollowsSplit(levels, 0, start, more);
      assert start[0] && !start[1] && start[2];
      assert start[0] == LevelAfter(levels, 0 + 0) && start[1] == LevelAfter(levels, 0 + 1);
      assert start[2] == LevelAfter(levels, 0 + 2);
    }
    if LevelAfter(levels, 0) && !LevelAfter(levels, 1) && LevelAfter(levels, 2) && Follows(levels, 3, more) {
      FollowsRest(levels, 0, start, more);
    }
  }

  lemma Rc5Stuck(buf: seq<nat>, rawlen: nat)
    requires |buf| == RAWBUF && 1 <= rawlen <= RAWBUF && !AllWhole(buf, rawlen, 1, RC5_T1)
    ensures Rc5Result(buf, rawlen) == None
  {
    hide RcBits, Expect, AllWhole, Stuck;
    var e := SomeStuck(buf, rawlen, 1, RC5_T1);
    StuckExpect(buf, rawlen, e, Position(1, 0), RC5_T1, [true, false, true]);
    var at := Expect(buf, rawlen, Position(1, 0), RC5_T1, [true, false, true]);
    if at.Some? {
      StuckBits(buf, rawlen, e, at.value, RC5_T1, false, None, Bits(0, 0));
    }
  }

  lemma Rc5Found(buf: seq<nat>, rawlen: nat) returns (bits: seq<bool>)
    requires |buf| == RAWBUF && rawlen <= RAWBUF && Rc5Result(buf, rawlen).Some?
    ensures rawlen >= 13 && RecordsLevels(buf, rawlen, 1, RC5_T1, Rc5Levels(bits))
  {
    hide RcBits, Expect, AllWhole, RecordsLevels, Follows, LevelAfter, Place, LevelsIn, BitLevels;
    if !AllWhole(buf, rawlen, 1, RC5_T1) {
      Rc5Stuck(buf, rawlen);
    } else {
      ThreeFound(buf, rawlen);
      LevelFound(buf, rawlen, 1, RC5_T1, 3);
      bits := BitsFound(buf, rawlen, 1, RC5_T1, 3, false, None, Bits(0, 0));
      ThreeFollow(LevelsIn(buf, rawlen, 1, RC5_T1), BitLevels(bits, 0, false, None));
      RecordsMeans(buf, rawlen, 1, RC5_T1, Rc5Levels(bits));
    }
  }

  lemma Rc5Taken(buf: seq<nat>, rawlen: nat, bits: seq<bool>)
    requires |buf| == RAWBUF && 13 <= rawlen <= RAWBUF && RecordsLevels(buf, rawlen, 1, RC5_T1, Rc5Levels(bits))
    ensures Rc5Result(buf, rawlen) == Some(Results(RC5, |bits|, ShiftedIn(0, bits, WORD32), 0))
  {
    hide RcBits, Expect, AllWhole, RecordsLevels, Follows, LevelAfter, Place, LevelsIn, BitLevels;
    RecordsMeans(buf, rawlen, 1, RC5_T1, Rc5Levels(bits));
    ThreeFollow(LevelsIn(buf, rawlen, 1, RC5_T1), BitLevels(bits, 0, false, None));
    ThreeFound(buf, rawlen);
    BitsTaken(buf, rawlen, 1, RC5_T1, 3, bits, false, None, Bits(0, 0));
  }

  /** RC5: exactly the recordings of its frames, if they have 13 entries. */
  lemma Rc5Exact(buf: seq<nat>, rawlen: nat, r: Results)
    requires |buf| == 100 && rawlen <= 100
    ensures Rc5Result(buf, rawlen) == Some(r) <==>
            && rawlen >= 13 && r == Results(RC5, r.bits, r.value, 0)
            && exists bits :: |bits| == r.bits && RecordsLevels(buf, rawlen, 1, 889, Rc5Levels(bits)) && Spells(r.value, bits, 32)
  {
    Pow2Powers();
    hide Rc5Result, Rc5Levels, RecordsLevels, Spells, ShiftedIn, Pow2;
    if Rc5Result(buf, rawlen) == Some(r) {
      var bits := Rc5Found(buf, rawlen);
      Rc5Taken(buf, rawlen, bits);
      SpellsTell(r.value, bits, 32);
    } else if rawlen >= 13 && r == Results(RC5, r.bits, r.value, 0) {
      forall bits | |bits| == r.bits && RecordsLevels(buf, rawlen, 1, 889, Rc5Levels(bits)) ensures !Spells(r.value, bits, 32) {
        Rc5Taken(buf, rawlen, bits);
        SpellsTell(r.value, bits, 32);
      }
    }
  }

  /** The start of an RC6 frame. */
  lemma TwoFound(buf: seq<nat>, rawlen: nat)
    requires 3 <= rawlen <= |buf| && AllWhole(buf, rawlen, 3, RC6_T1)
    ensures var levels := LevelsIn(buf, rawlen, 3, RC6_T1);
            Expect(buf, rawlen, Position(3, 0), RC6_T1, [true, false]) ==
            if LevelAfter(levels, 0) && !LevelAfter(levels, 1)
            then Some(Place(buf, rawlen, 3, RC6_T1, 2)) else None
  {
    hide Expect, AllWhole, LevelAfter, Place, LevelsIn, RcLevel;
    PlaceZero(buf, rawlen, 3, RC6_T1);
    LevelFound(buf, rawlen, 3, RC6_T1, 0);
    LevelFound(buf, rawlen, 3, RC6_T1, 1);
    ExpectTwo(buf, rawlen, Position(3, 0), RC6_T1, true, false);
  }

  lemma TwoFollow(levels: seq<bool>, more: seq<bool>)
    ensures Follows(levels, 0, [true, false] + more) <==>
            LevelAfter(levels, 0) && !LevelAfter(levels, 1) && Follows(levels, 2, more)
  {
    var start := [true, false];
    hide LevelAfter, Follows;
    if Follows(levels, 0, start + more) {
      FollowsSplit(levels, 0, start, more);
      assert start[0] && !start[1];
      assert start[0] == LevelAfter(levels, 0 + 0) && start[1] == LevelAfter(levels, 0 + 1);
    }
    if LevelAfter(levels, 0) && !LevelAfter(levels, 1) && Follows(levels, 2, more) {
      FollowsRest(levels, 0, start, more);
    }
  }

  lemma Rc6Stuck(buf: seq<nat>, rawlen: nat)
    requires |buf| == RAWBUF && 3 <= rawlen <= RAWBUF && !AllWhole(buf, rawlen, 3, RC6_T1)
    ensures Rc6Result(buf, rawlen) == None
  {
    hide RcBits, Expect, AllWhole, Stuck, MatchMark, MatchSpace;
    var e := SomeStuck(buf, rawlen, 3, RC6_T1);
    StuckExpect(buf, rawlen, e, Position(3, 0), RC6_T1, [true, false]);
    var at := Expect(buf, rawlen, Position(3, 0), RC6_T1, [true, false]);
    if at.Some? {
      StuckBits(buf, rawlen, e, at.value, RC6_T1, true, Some(3), Bits(0, 0));
    }
  }

  lemma TooFewForRc6(buf: seq<nat>, rawlen: nat)
    requires |buf| == RAWBUF && rawlen < 3
    ensures Rc6Result(buf, rawlen) == None
  {
    hide RcBits, Expect, MatchMark, MatchSpace;
    ExpectTwo(buf, rawlen, Position(3, 0), RC6_T1, true, false);
  }

  lemma Rc6Found(buf: seq<nat>, rawlen: nat) returns (bits: seq<bool>)
    requires |buf| == RAWBUF && rawlen <= RAWBUF && Rc6Result(buf, rawlen).Some?
    ensures rawlen >= 3 && MatchMark(buf[1], 2666) && MatchSpace(buf[2], 889)
    ensures RecordsLevels(buf, rawlen, 3, RC6_T1, Rc6Levels(bits))
  {
    hide RcBits, Expect, AllWhole, RecordsLevels, Follows, LevelAfter, Place, LevelsIn, BitLevels, MatchMark, MatchSpace;
    if rawlen < 3 {
      TooFewForRc6(buf, rawlen);
    } else if !AllWhole(buf, rawlen, 3, RC6_T1) {
      Rc6Stuck(buf, rawlen);
    } else {
      TwoFound(buf, rawlen);
      LevelFound(buf, rawlen, 3, RC6_T1, 2);
      bits := BitsFound(buf, rawlen, 3, RC6_T1, 2, true, Some(3), Bits(0, 0));
      TwoFollow(LevelsIn(buf, rawlen, 3, RC6_T1), BitLevels(bits, 0, true, Some(3)));
      RecordsMeans(buf, rawlen, 3, RC6_T1, Rc6Levels(bits));
    }
  }

  lemma Rc6Taken(buf: seq<nat>, rawlen: nat, bits: seq<bool>)
    requires |buf| == RAWBUF && 3 <= rawlen <= RAWBUF && RecordsLevels(buf, rawlen, 3, RC6_T1, Rc6Levels(bits))
    requires MatchMark(buf[1], 2666) && MatchSpace(buf[2], 889)
    ensures Rc6Result(buf, rawlen) == Some(Results(RC6, |bits|, ShiftedIn(0, bits, WORD32), 0))
  {
    hide RcBits, Expect, AllWhole, RecordsLevels, Follows, LevelAfter, Place, LevelsIn, BitLevels, MatchMark, MatchSpace;
    RecordsMeans(buf, rawlen, 3, RC6_T1, Rc6Levels(bits));
    TwoFollow(LevelsIn(buf, rawlen, 3, RC6_T1), BitLevels(bits, 0, true, Some(3)));
    TwoFound(buf, rawlen);
    BitsTaken(buf, rawlen, 3, RC6_T1, 2, bits, true, Some(3), Bits(0, 0));
  }

  /** RC6: exactly the recordings of its frames, the header checked by itself. */
  lemma Rc6Exact(buf: seq<nat>, rawlen: nat, r: Results)
    requires |buf| == 100 && rawlen <= 100
    ensures Rc6Result(buf, rawlen) == Some(r) <==>
            && rawlen >= 3 && MatchMark(buf[1], 2666) && MatchSpace(buf[2], 889) && r == Results(RC6, r.bits, r.value, 0)
            && exists bits :: |bits| == r.bits && RecordsLevels(buf, rawlen, 3, 444, Rc6Levels(bits)) && Spells(r.value, bits, 32)
  {
    Pow2Powers();
    hide Rc6Result, Rc6Levels, RecordsLevels, Spells, ShiftedIn, Pow2, MatchMark, MatchSpace;
    if Rc6Result(buf, rawlen) == Some(r) {
      var bits := Rc6Found(buf, rawlen);
      Rc6Taken(buf, rawlen, bits);
      SpellsTell(r.value, bits, 32);
    } else if rawlen >= 3 && MatchMark(buf[1], 2666) && MatchSpace(buf[2], 889) && r == Results(RC6, r.bits, r.value, 0) {
      forall bits | |bits| == r.bits && RecordsLevels(buf, rawlen, 3, 444, Rc6Levels(bits)) ensures !Spells(r.value, bits, 32) {
        Rc6Taken(buf, rawlen, bits);
        SpellsTell(r.value, bits, 32);
      }
    }
  }
}
