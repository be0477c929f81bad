/** Manchester frames through the air: RC5 and RC6, and the level stream they are read from. */
module IrManchester {
  import opened Options
  import opened IrSignal
  import opened IrSampler
  import opened IrDecoders
  import opened IrSenders
  import opened IrCapture
  import Sequences

  // ---- the levels of a frame, one for each interval ----

  /** A bit that starts with level `first`; a wide one holds each of its levels twice as long. */
  function OneBit(first: bool, wide: bool): seq<bool> {
    if wide then [first, first, !first, !first] else [first, !first]
  }

  /** The levels of `bits`, of which the first is number `count`; bit number `wide` is the wide one. */
  function BitLevels(bits: seq<bool>, count: nat, markFirst: bool, wide: Option<nat>): seq<bool>
    decreases |bits|
  {
    if bits == [] then []
    else OneBit(bits[0] == markFirst, wide == Some(count)) + BitLevels(bits[1..], count + 1, markFirst, wide)
  }

  function Rc5Levels(bits: seq<bool>): seq<bool> {
    [true, false, true] + BitLevels(bits, 0, false, None)
  }

  function Rc6Levels(bits: seq<bool>): seq<bool> {
    [true, false] + BitLevels(bits, 0, true, Some(3))
  }

  lemma BitLevelsFirst(bits: seq<bool>, count: nat, markFirst: bool, wide: Option<nat>)
    requires bits != []
    ensures BitLevels(bits, count, markFirst, wide) ==
            OneBit(bits[0] == markFirst, wide == Some(count)) + BitLevels(bits[1..], count + 1, markFirst, wide)
  {
  }

  lemma NoBits(count: nat, markFirst: bool, wide: Option<nat>)
    ensures BitLevels([], count, markFirst, wide) == []
  {
  }

  lemma {:induction false} BitLevelsSnoc(bits: seq<bool>, b: bool, count: nat, markFirst: bool, wide: Option<nat>)
    ensures BitLevels(bits + [b], count, markFirst, wide) ==
            BitLevels(bits, count, markFirst, wide) + OneBit(b == markFirst, wide == Some(count + |bits|))
    decreases |bits|
  {
    hide *;
    if bits == [] {
      assert [] + [b] == [b] && [b][1..] == [];
      BitLevelsFirst([b], count, markFirst, wide);
      NoBits(count, markFirst, wide);
      NoBits(count + 1, markFirst, wide);
      var one := OneBit(b == markFirst, wide == Some(count));
      assert one + [] == [] + one;
    } else {
      var rest := bits[1..];
      assert (bits + [b])[1..] == rest + [b] && (bits + [b])[0] == bits[0];
      BitLevelsFirst(bits + [b], count, markFirst, wide);
      BitLevelsFirst(bits, count, markFirst, wide);
      BitLevelsSnoc(rest, b, count + 1, markFirst, wide);
      Sequences.Associate(OneBit(bits[0] == markFirst, wide == Some(count)), BitLevels(rest, count + 1, markFirst, wide),
                          OneBit(b == markFirst, wide == Some(count + |bits|)));
    }
  }

  /** One segment of length `t` for each level. */
  function Units(t: nat, levels: seq<bool>): seq<Segment> {
    seq(|levels|, i requires 0 <= i < |levels| => Segment(levels[i], t))
  }

  /** Each run length as a width. */
  function Scaled(t: nat, rs: seq<nat>): seq<nat> {
    seq(|rs|, i requires 0 <= i < |rs| => t * rs[i])
  }

  lemma ScaledGrow(t: nat, rs: seq<nat>)
    requires rs != []
    ensures |Scaled(t, rs)| == |rs|
    ensures var n := |rs| - 1;
            Scaled(t, rs[n := rs[n] + 1]) == Scaled(t, rs)[n := Scaled(t, rs)[n] + t]
  {
    OneMore(t, rs[|rs| - 1]);
  }

  lemma OneMore(t: nat, r: nat)
    ensures t * (r + 1) == t * r + t
  {
  }

  lemma ScaledSnoc(t: nat, rs: seq<nat>)
    ensures |Scaled(t, rs)| == |rs| && Scaled(t, rs + [1]) == Scaled(t, rs) + [t]
  {
  }

  /** Of `n` alternating runs that start with a mark, the last one has level `x`. */
  predicate EndsIn(n: nat, x: bool) {
    (n % 2 == 1) == x
  }

  lemma EndsInNext(n: nat, x: bool)
    requires EndsIn(n, !x)
    ensures EndsIn(n + 1, x)
  {
  }

  lemma {:induction false} RunsEndIn(levels: seq<bool>)
    requires levels != [] && levels[0]
    ensures EndsIn(|Runs(levels)|, levels[|levels| - 1])
    decreases |levels|
  {
    var n := |levels| - 1;
    var init, x := levels[..n], levels[n];
    assert levels == init + [x];
    RunsSnoc(init, x);
    if n > 0 {
      hide EndsIn, Runs;
      RunsEndIn(init);
      if init[n - 1] != x {
        EndsInNext(|Runs(init)|, x);
      }
    }
  }

  /** Segments of one interval each merge into the runs of their levels. */
  lemma {:induction false} UnitsMerge(before: seq<Segment>, t: nat, levels: seq<bool>)
    requires t > 0 && |Widths(before)| % 2 == 0 && (levels != [] ==> levels[0])
    ensures Widths(before + Units(t, levels)) == Widths(before) + Scaled(t, Runs(levels))
    decreases |levels|
  {
    if levels == [] {
      assert before + Units(t, []) == before;
      assert Widths(before) + Scaled(t, []) == Widths(before);
    } else {
      var n := |levels| - 1;
      var init, x := levels[..n], levels[n];
      assert levels == init + [x];
      assert n > 0 ==> init[0];
      hide Runs, Widths, Units, Extend, EndsIn, Scaled;
      UnitsMerge(before, t, init);
      UnitsSnoc(t, init, x);
      assert before + Units(t, levels) == before + Units(t, init) + [Segment(x, t)];
      WidthsSnoc(before + Units(t, init), Segment(x, t));
      OneUnitMore(Widths(before), t, init, x);
    }
  }

  /** One more level makes the last run longer, or a new one. */
  lemma OneUnitMore(ws: seq<nat>, t: nat, init: seq<bool>, x: bool)
    requires t > 0 && |ws| % 2 == 0 && (init + [x])[0]
    ensures Extend(ws + Scaled(t, Runs(init)), Segment(x, t)) == ws + Scaled(t, Runs(init + [x]))
  {
    var n, rs := |init|, Runs(init);
    hide Runs, Extend, EndsIn, Scaled;
    RunsSnoc(init, x);
    if n > 0 {
      assert init[0] == (init + [x])[0];
      RunsEndIn(init);
    }
    if n > 0 && init[n - 1] == x {
      ScaledGrow(t, rs);
      ExtendLast(ws, Scaled(t, rs), x, t);
    } else {
      ScaledSnoc(t, rs);
      ExtendNew(ws, Scaled(t, rs), x, t);
    }
  }

  lemma UnitsSnoc(t: nat, levels: seq<bool>, x: bool)
    ensures Units(t, levels + [x]) == Units(t, levels) + [Segment(x, t)]
  {
  }

  lemma ExtendLast(ws: seq<nat>, rs: seq<nat>, x: bool, t: nat)
    requires t > 0 && rs != [] && |ws| % 2 == 0 && EndsIn(|rs|, x)
    ensures Extend(ws + rs, Segment(x, t)) == ws + rs[|rs| - 1 := rs[|rs| - 1] + t]
  {
    var n := |ws| + |rs| - 1;
    assert (ws + rs)[n] == rs[|rs| - 1];
    assert (ws + rs)[n := rs[|rs| - 1] + t] == ws + rs[|rs| - 1 := rs[|rs| - 1] + t];
  }

  lemma ExtendNew(ws: seq<nat>, rs: seq<nat>, x: bool, t: nat)
    requires t > 0 && |ws| % 2 == 0 && (if rs == [] then x else EndsIn(|rs|, !x))
    ensures Extend(ws + rs, Segment(x, t)) == ws + (rs + [t])
  {
    assert ws + rs + [t] == ws + (rs + [t]);
  }

  // ---- RC5: every segment is one interval ----

  lemma {:induction false} Rc5SegmentsAreUnits(bits: seq<bool>)
    ensures Rc5Segments(bits) == Units(RC5_T1, BitLevels(bits, 0, false, None))
    decreases |bits|
  {
    if bits != [] {
      var init, b := bits[..|bits| - 1], bits[|bits| - 1];
      assert bits == init + [b];
      Rc5SegmentsAreUnits(init);
      BitLevelsSnoc(init, b, 0, false, None);
      assert ManchesterBit(RC5_T1, !b) == Units(RC5_T1, OneBit(b == false, false));
    }
  }

  lemma Rc5Widths(bits: seq<bool>)
    ensures Widths(Rc5Frame(bits)) == Scaled(RC5_T1, Runs(Rc5Levels(bits)))
  {
    hide Runs, BitLevels, Rc5Segments;
    Rc5SegmentsAreUnits(bits);
    var levels := Rc5Levels(bits);
    var units := Units(RC5_T1, levels);
    assert Rc5Frame(bits) == units + [Space(0)];
    assert Widths([]) == [] && [] + units == units;
    UnitsMerge([], RC5_T1, levels);
    WidthsSnoc(units, Space(0));
    assert [] + Scaled(RC5_T1, Runs(levels)) == Scaled(RC5_T1, Runs(levels));
  }

  // ---- RC6: the segments of the wide bit are two intervals each ----

  function Rc6Header(): seq<Segment> {
    [Mark(2666), Space(889)]
  }

  lemma WideSegment(before: seq<Segment>, before': seq<Segment>, x: bool, t: nat)
    requires t > 0 && Widths(before) == Widths(before') != []
    ensures Widths(before + [Segment(x, 2 * t)]) == Widths(before' + Units(t, [x, x]))
  {
    hide Widths;
    assert before' + Units(t, [x, x]) == before' + [Segment(x, t)] + [Segment(x, t)];
    WidthsSnoc(before, Segment(x, 2 * t));
    WidthsSnoc(before', Segment(x, t));
    WidthsSnoc(before' + [Segment(x, t)], Segment(x, t));
  }

  lemma NarrowSegment(before: seq<Segment>, before': seq<Segment>, x: bool, t: nat)
    requires Widths(before) == Widths(before')
    ensures Widths(before + [Segment(x, t)]) == Widths(before' + Units(t, [x]))
  {
    hide Widths;
    assert before' + Units(t, [x]) == before' + [Segment(x, t)];
    WidthsSnoc(before, Segment(x, t));
    WidthsSnoc(before', Segment(x, t));
  }

  lemma NonemptyWidths(before: seq<Segment>, g: Segment)
    requires Widths(before) != []
    ensures Widths(before + [g]) != []
  {
    WidthsSnoc(before, g);
  }

  lemma UnitsConcat(t: nat, a: seq<bool>, b: seq<bool>)
    ensures Units(t, a + b) == Units(t, a) + Units(t, b)
  {
  }

  /** One bit of RC6, as the sender's segments and as intervals. */
  lemma Rc6BitMerges(before: seq<Segment>, before': seq<Segment>, b: bool, i: nat)
    requires Widths(before) == Widths(before') != []
    ensures Widths(before + ManchesterBit(Rc6Width(i), b)) == Widths(before' + Units(RC6_T1, OneBit(b, i == 3)))
    ensures Widths(before + ManchesterBit(Rc6Width(i), b)) != []
  {
    hide Widths, Units;
    var t := Rc6Width(i);
    assert before + ManchesterBit(t, b) == before + [Segment(b, t)] + [Segment(!b, t)];
    NonemptyWidths(before, Segment(b, t));
    NonemptyWidths(before + [Segment(b, t)], Segment(!b, t));
    if i == 3 {
      var u, v := Units(RC6_T1, [b, b]), Units(RC6_T1, [!b, !b]);
      WideSegment(before, before', b, RC6_T1);
      WideSegment(before + [Segment(b, t)], before' + u, !b, RC6_T1);
      assert OneBit(b, true) == [b, b] + [!b, !b];
      UnitsConcat(RC6_T1, [b, b], [!b, !b]);
      assert before' + (u + v) == before' + u + v;
    } else {
      var u, v := Units(RC6_T1, [b]), Units(RC6_T1, [!b]);
      NarrowSegment(before, before', b, t);
      NarrowSegment(before + [Segment(b, t)], before' + u, !b, t);
      assert OneBit(b, false) == [b] + [!b];
      UnitsConcat(RC6_T1, [b], [!b]);
      assert before' + (u + v) == before' + u + v;
    }
  }

  lemma {:induction false} Rc6SegmentsMerge(before: seq<Segment>, bits: seq<bool>)
    requires Widths(before) != []
    ensures Widths(before + Rc6Segments(bits)) == Widths(before + Units(RC6_T1, BitLevels(bits, 0, true, Some(3)))) != []
    decreases |bits|
  {
    hide Widths, OneBit, ManchesterBit;
    if bits == [] {
      assert before + Rc6Segments([]) == before && before + Units(RC6_T1, []) == before;
    } else {
      var init, b := bits[..|bits| - 1], bits[|bits| - 1];
      var i := |init|;
      assert bits == init + [b];
      Rc6SegmentsMerge(before, init);
      BitLevelsSnoc(init, b, 0, true, Some(3));
      var levels, more := BitLevels(init, 0, true, Some(3)), OneBit(b, i == 3);
      var segments, units := before + Rc6Segments(init), before + Units(RC6_T1, levels);
      Rc6BitMerges(segments, units, b, i);
      UnitsConcat(RC6_T1, levels, more);
      assert before + Rc6Segments(bits) == segments + ManchesterBit(Rc6Width(i), b);
      assert before + Units(RC6_T1, levels + more) == units + Units(RC6_T1, more);
    }
  }

  /** The frame without its closing space of no length. */
  lemma Rc6Merges(bits: seq<bool>)
    ensures Widths(Rc6Header() + [Mark(RC6_T1), Space(RC6_T1)] + Rc6Segments(bits)) ==
            Widths(Rc6Header() + Units(RC6_T1, Rc6Levels(bits)))
  {
    var rest := BitLevels(bits, 0, true, Some(3));
    assert Rc6Levels(bits) == [true, false] + rest;
    hide Runs, BitLevels, Rc6Segments, Widths, Rc6Header, Units, Rc6Levels;
    StartIs();
    StartWidths();
    var before := Rc6Header() + Units(RC6_T1, [true, false]);
    Rc6SegmentsMerge(before, bits);
    UnitsConcat(RC6_T1, [true, false], rest);
    Sequences.Associate(Rc6Header(), Units(RC6_T1, [true, false]), Units(RC6_T1, rest));
  }

  lemma StartWidths()
    ensures Widths(Rc6Header() + Units(RC6_T1, [true, false])) != []
  {
    HeaderIs();
    hide Widths, Rc6Header;
    assert Rc6Header() + Units(RC6_T1, [true, false]) == Rc6Header() + [Mark(RC6_T1)] + [Space(RC6_T1)];
    NonemptyWidths(Rc6Header(), Mark(RC6_T1));
    NonemptyWidths(Rc6Header() + [Mark(RC6_T1)], Space(RC6_T1));
  }

  lemma StartIs()
    ensures Units(RC6_T1, [true, false]) == [Mark(RC6_T1), Space(RC6_T1)]
  {
  }

  lemma Rc6Widths(bits: seq<bool>)
    ensures Widths(Rc6Frame(bits)) == [2666, 889] + Scaled(RC6_T1, Runs(Rc6Levels(bits)))
  {
    HeaderIs();
    hide Runs, BitLevels, Rc6Segments, Widths;
    Rc6Merges(bits);
    var before := Rc6Header() + [Mark(RC6_T1), Space(RC6_T1)] + Rc6Segments(bits);
    assert Rc6Frame(bits) == before + [Space(0)];
    WidthsSnoc(before, Space(0));
    assert Rc6Levels(bits)[0];
    hide Rc6Levels, Units, Rc6Header, Scaled;
    UnitsMerge(Rc6Header(), RC6_T1, Rc6Levels(bits));
  }

  lemma HeaderIs()
    ensures Widths(Rc6Header()) == [2666, 889]
  {
    WidthsSnoc([], Mark(2666));
    WidthsSnoc([] + [Mark(2666)], Space(889));
    assert [] + [Mark(2666)] + [Space(889)] == Rc6Header();
  }

  // ---- trailing space is not recorded ----

  function Trim(levels: seq<bool>): (r: seq<bool>)
    ensures |r| <= |levels| && r == levels[..|r|]
    ensures r != [] ==> r[|r| - 1]
    ensures forall i :: |r| <= i < |levels| ==> !levels[i]
    decreases |levels|
  {
    if levels != [] && !levels[|levels| - 1] then Trim(levels[..|levels| - 1]) else levels
  }

  lemma {:induction false} TrimDropsLastRun(levels: seq<bool>)
    requires levels != [] && !levels[|levels| - 1]
    ensures var rs := Runs(levels); Runs(Trim(levels)) == rs[..|rs| - 1]
    decreases |levels|
  {
    var n := |levels| - 1;
    var init := levels[..n];
    assert levels == init + [false];
    RunsSnoc(init, false);
    if n > 0 && !init[n - 1] {
      TrimDropsLastRun(init);
    } else {
      assert Trim(levels) == init;
    }
  }

  lemma ScaledPrefix(t: nat, rs: seq<nat>)
    requires rs != []
    ensures |Scaled(t, rs)| == |rs| && Scaled(t, rs)[..|rs| - 1] == Scaled(t, rs[..|rs| - 1])
  {
  }

  /** What is recorded of runs of intervals. */
  lemma TrimmedWidths(header: seq<nat>, t: nat, levels: seq<bool>)
    requires levels != [] && levels[0] && |header| % 2 == 0
    ensures UpToLastMark(header + Scaled(t, Runs(levels))) == header + Scaled(t, Runs(Trim(levels)))
  {
    var x := levels[|levels| - 1];
    assert x ==> Trim(levels) == levels;
    hide Runs, Trim, Scaled, EndsIn;
    RunsEndIn(levels);
    if !x {
      TrimDropsLastRun(levels);
      ScaledPrefix(t, Runs(levels));
    }
    RecordedPart(header, Scaled(t, Runs(levels)), x);
  }

  lemma RecordedPart(header: seq<nat>, ws: seq<nat>, x: bool)
    requires ws != [] && |header| % 2 == 0 && EndsIn(|ws|, x)
    ensures UpToLastMark(header + ws) == header + if x then ws else ws[..|ws| - 1]
  {
    assert !x ==> (header + ws)[..|header| + |ws| - 1] == header + ws[..|ws| - 1];
  }

  // ---- no run is longer than the decoder can tell apart ----

  predicate AtMost(rs: seq<nat>, m: nat) {
    forall i | 0 <= i < |rs| :: rs[i] <= m
  }

  lemma {:induction false} RunsBlock(levels: seq<bool>, x: bool, n: nat)
    requires n > 0 && levels != []
    ensures var rs := Runs(levels);
            Runs(levels + Block(x, n)) == if levels[|levels| - 1] == x then rs[|rs| - 1 := rs[|rs| - 1] + n] else rs + [n]
    decreases n
  {
    hide Runs;
    if n == 1 {
      assert Block(x, 1) == [x];
      RunsSnoc(levels, x);
    } else {
      RunsBlock(levels, x, n - 1);
      assert levels + Block(x, n) == levels + Block(x, n - 1) + [x];
      RunsSnoc(levels + Block(x, n - 1), x);
    }
  }

  /** Levels that end in `end`, in `n` runs of which none is longer than `m` and the last one is `last` long. */
  predicate InRuns(levels: seq<bool>, end: bool, m: nat, n: nat, last: nat) {
    var rs := Runs(levels);
    levels != [] && levels[|levels| - 1] == end && AtMost(rs, m) && |rs| == n && rs[|rs| - 1] == last
  }

  /** One more bit adds one run, or two if it does not start as the levels before it end. */
  lemma BitRuns(levels: seq<bool>, first: bool, wide: bool, end: bool, m: nat, n: nat, last: nat)
    requires InRuns(levels, end, m, n, last) && last + (if wide then 2 else 1) <= m
    ensures InRuns(levels + OneBit(first, wide), !first, m, n + if end == first then 1 else 2, if wide then 2 else 1)
  {
    hide Runs;
    var w := if wide then 2 else 1;
    assert OneBit(first, wide) == Block(first, w) + Block(!first, w);
    assert levels + OneBit(first, wide) == levels + Block(first, w) + Block(!first, w);
    RunsBlock(levels, first, w);
    RunsBlock(levels + Block(first, w), !first, w);
  }

  /** The last of `bits`; the start bit before them is a 1. */
  function Last(bits: seq<bool>): bool {
    bits == [] || bits[|bits| - 1]
  }

  /** The number of bits that are the same as the one before. */
  function Repeats(bits: seq<bool>): nat
    decreases |bits|
  {
    if bits == [] then 0
    else Repeats(bits[..|bits| - 1]) + if bits[|bits| - 1] == Last(bits[..|bits| - 1]) then 1 else 0
  }

  lemma RepeatsSnoc(bits: seq<bool>, b: bool)
    ensures Repeats(bits + [b]) == Repeats(bits) + (if b == Last(bits) then 1 else 0) && Last(bits + [b]) == b
  {
    assert (bits + [b])[..|bits|] == bits;
  }

  lemma {:induction false} RepeatsBound(bits: seq<bool>)
    ensures Repeats(bits) <= |bits|
    decreases |bits|
  {
    if bits != [] {
      RepeatsBound(bits[..|bits| - 1]);
    }
  }

  lemma Rc5LevelsSnoc(bits: seq<bool>, b: bool)
    ensures Rc5Levels(bits + [b]) == Rc5Levels(bits) + OneBit(!b, false) && Rc5Levels(bits) != []
  {
    hide BitLevels, OneBit;
    BitLevelsSnoc(bits, b, 0, false, None);
    assert (b == false) == !b;
    assert [true, false, true] + (BitLevels(bits, 0, false, None) + OneBit(!b, false)) ==
           Rc5Levels(bits) + OneBit(!b, false);
  }

  lemma Rc6LevelsSnoc(bits: seq<bool>, b: bool)
    ensures Rc6Levels(bits + [b]) == Rc6Levels(bits) + OneBit(b, |bits| == 3) && Rc6Levels(bits) != []
  {
    hide BitLevels, OneBit;
    BitLevelsSnoc(bits, b, 0, true, Some(3));
    assert (b == true) == b;
    assert [true, false] + (BitLevels(bits, 0, true, Some(3)) + OneBit(b, |bits| == 3)) ==
           Rc6Levels(bits) + OneBit(b, |bits| == 3);
  }

  /** A bit of RC5 ends as it is. */
  lemma {:induction false} Rc5Runs(bits: seq<bool>)
    ensures InRuns(Rc5Levels(bits), Last(bits), 2, |bits| + 3 + Repeats(bits), 1)
    decreases |bits|
  {
    hide Runs, OneBit, Repeats, Last, Rc5Levels, AtMost, InRuns;
    if bits == [] {
      Rc5StartRuns();
    } else {
      var init, b := bits[..|bits| - 1], bits[|bits| - 1];
      Sequences.LastApart(bits);
      Rc5Runs(init);
      Rc5LevelsSnoc(init, b);
      RepeatsSnoc(init, b);
      BitRuns(Rc5Levels(init), !b, false, Last(init), 2, |init| + 3 + Repeats(init), 1);
    }
  }

  lemma Rc5StartRuns()
    ensures InRuns(Rc5Levels([]), Last([]), 2, 3 + Repeats([]), 1)
  {
    StartRuns();
    assert Rc5Levels([]) == [true, false, true];
  }

  lemma StartRuns()
    ensures Runs([true, false, true]) == [1, 1, 1] && Runs([true, false]) == [1, 1]
  {
    RunsOne(true);
    RunsSnoc([true], false);
    RunsSnoc([true] + [false], true);
    assert [true] + [false] + [true] == [true, false, true] && [true] + [false] == [true, false];
  }

  /** A bit of RC6 ends as its opposite. */
  lemma {:induction false} Rc6Runs(bits: seq<bool>)
    ensures InRuns(Rc6Levels(bits), !Last(bits), 3, |bits| + 2 + Repeats(bits), Rc6LastRun(|bits|))
    decreases |bits|
  {
    hide Runs, OneBit, Repeats, Last, Rc6Levels, AtMost, InRuns;
    if bits == [] {
      Rc6StartRuns();
    } else {
      var init, b := bits[..|bits| - 1], bits[|bits| - 1];
      Sequences.LastApart(bits);
      Rc6Runs(init);
      Rc6LevelsSnoc(init, b);
      RepeatsSnoc(init, b);
      BitRuns(Rc6Levels(init), b, |init| == 3, !Last(init), 3, |init| + 2 + Repeats(init), Rc6LastRun(|init|));
    }
  }

  lemma Rc6StartRuns()
    ensures InRuns(Rc6Levels([]), !Last([]), 3, 2 + Repeats([]), Rc6LastRun(0))
  {
    StartRuns();
    assert Rc6Levels([]) == [true, false];
  }

  /** The last of the `n` bits of RC6 ends in one interval, the fourth in two. */
  function Rc6LastRun(n: nat): nat {
    if n == 4 then 2 else 1
  }

  lemma {:induction false} BlocksOfRuns(levels: seq<bool>)
    requires levels != [] ==> levels[0]
    ensures Blocks(Runs(levels), true) == levels
    decreases |levels|
  {
    if levels != [] {
      var n := |levels| - 1;
      var init, x := levels[..n], levels[n];
      assert levels == init + [x];
      RunsSnoc(init, x);
      assert n == 0 ==> Runs(init) == [] && Blocks([], true) == [];
      hide Runs, Blocks, EndsIn;
      BlocksOfRuns(init);
      if n > 0 {
        RunsEndIn(init);
      }
      if n > 0 && init[n - 1] == x {
        LastBlock(Runs(init), x);
      } else {
        NewBlock(Runs(init), x);
      }
    }
  }

  lemma LastBlock(rs: seq<nat>, x: bool)
    requires rs != [] && EndsIn(|rs|, x)
    ensures Blocks(rs[|rs| - 1 := rs[|rs| - 1] + 1], true) == Blocks(rs, true) + [x]
  {
    hide Blocks;
    var n := |rs| - 1;
    var rs' := rs[n := rs[n] + 1];
    BlocksSplit(rs, n, true);
    BlocksSplit(rs', n, true);
    assert rs[n..] == [rs[n]] && rs'[n..] == [rs[n] + 1] && rs'[..n] == rs[..n];
    OneBlock(rs[n], x);
    OneBlock(rs[n] + 1, x);
    assert Block(x, rs[n] + 1) == Block(x, rs[n]) + [x];
  }

  lemma NewBlock(rs: seq<nat>, x: bool)
    requires if rs == [] then x else EndsIn(|rs|, !x)
    ensures Blocks(rs + [1], true) == Blocks(rs, true) + [x]
  {
    hide Blocks;
    BlocksSplit(rs + [1], |rs|, true);
    assert (rs + [1])[|rs|..] == [1] && (rs + [1])[..|rs|] == rs;
    OneBlock(1, x);
    assert Block(x, 1) == [x];
  }

  // ---- the level stream ----

  /** Where the decoder stands after `k` levels of the runs `rs`, the first of which is entry `base`. */
  function PositionOf(rs: seq<nat>, base: nat, k: nat): Position
    decreases |rs|
  {
    if rs == [] then Position(base, 0)
    else if k < rs[0] then Position(base, k)
    else PositionOf(rs[1..], base + 1, k - rs[0])
  }

  /** Every entry from `base` on is taken for as many intervals as `rs` says. */
  predicate Reads(buf: seq<nat>, rawlen: nat, base: nat, rs: seq<nat>, t1: nat)
    requires t1 >= MARK_EXCESS
  {
    && base + |rs| == rawlen <= |buf|
    && forall i | 0 <= i < |rs| :: 1 <= rs[i] <= 3 && Avail(buf[base + i], (base + i) % 2 == 1, t1) == rs[i]
  }

  lemma ReadsRest(buf: seq<nat>, rawlen: nat, base: nat, rs: seq<nat>, t1: nat)
    requires t1 >= MARK_EXCESS && Reads(buf, rawlen, base, rs, t1) && rs != []
    ensures Reads(buf, rawlen, base + 1, rs[1..], t1)
  {
    hide Avail;
    forall i | 0 <= i < |rs| - 1
      ensures 1 <= rs[1..][i] <= 3 && Avail(buf[base + 1 + i], (base + 1 + i) % 2 == 1, t1) == rs[1..][i]
    {
      assert rs[1..][i] == rs[i + 1] && base + 1 + i == base + (i + 1);
    }
  }

  /** The run lengths undone: successive levels are those of the runs, and space from their end on, for ever. */
  lemma {:induction false} LevelAt(buf: seq<nat>, rawlen: nat, base: nat, rs: seq<nat>, t1: nat, k: nat)
    requires t1 >= MARK_EXCESS && Reads(buf, rawlen, base, rs, t1)
    ensures StreamAt(buf, rawlen, base, rs, t1, k)
    decreases |rs|
  {
    if rs == [] {
    } else if k < rs[0] {
      FirstEntry(buf, rawlen, base, rs, t1, k);
    } else {
      hide StreamAt, Reads;
      ReadsRest(buf, rawlen, base, rs, t1);
      LevelAt(buf, rawlen, base + 1, rs[1..], t1, k - rs[0]);
      LaterEntry(buf, rawlen, base, rs, t1, k);
    }
  }

  /** The `k`-th of successive calls gives the `k`-th level of the runs, or space after their end. */
  predicate StreamAt(buf: seq<nat>, rawlen: nat, base: nat, rs: seq<nat>, t1: nat, k: nat)
    requires t1 >= MARK_EXCESS && rawlen <= |buf|
  {
    var levels, at := Blocks(rs, base % 2 == 1), PositionOf(rs, base, k);
    && at.used < 3 && (at.offset < rawlen <==> k < |levels|)
    && RcLevel(buf, rawlen, at, t1).0 == Some(k < |levels| && levels[k])
    && RcLevel(buf, rawlen, at, t1).1 == PositionOf(rs, base, k + 1)
  }

  lemma FirstEntry(buf: seq<nat>, rawlen: nat, base: nat, rs: seq<nat>, t1: nat, k: nat)
    requires t1 >= MARK_EXCESS && Reads(buf, rawlen, base, rs, t1)
    requires rs != [] && k < rs[0]
    ensures StreamAt(buf, rawlen, base, rs, t1, k)
  {
    ReadsRest(buf, rawlen, base, rs, t1);
    StartOf(buf, rawlen, base + 1, rs[1..], t1);
    var mark := base % 2 == 1;
    LevelOfEntry(buf, rawlen, base, rs, t1, k);
    FirstOfBlocks(rs, mark, k);
    assert k + 1 == rs[0] ==> PositionOf(rs, base, k + 1) == PositionOf(rs[1..], base + 1, 0);
    assert PositionOf(rs, base, k) == Position(base, k) && k < 3 && base < rawlen;
    hide RcLevel, Reads, Blocks;
  }

  lemma LevelOfEntry(buf: seq<nat>, rawlen: nat, base: nat, rs: seq<nat>, t1: nat, k: nat)
    requires t1 >= MARK_EXCESS && Reads(buf, rawlen, base, rs, t1)
    requires rs != [] && k < rs[0]
    ensures RcLevel(buf, rawlen, Position(base, k), t1) ==
            (Some(base % 2 == 1), if k + 1 == rs[0] then Position(base + 1, 0) else Position(base, k + 1))
  {
    assert Avail(buf[base + 0], (base + 0) % 2 == 1, t1) == rs[0];
    hide Avail;
  }

  lemma FirstOfBlocks(rs: seq<nat>, mark: bool, k: nat)
    requires rs != [] && k < rs[0]
    ensures k < |Blocks(rs, mark)| && Blocks(rs, mark)[k] == mark
  {
    assert Blocks(rs, mark) == Block(mark, rs[0]) + Blocks(rs[1..], !mark);
  }

  lemma LaterEntry(buf: seq<nat>, rawlen: nat, base: nat, rs: seq<nat>, t1: nat, k: nat)
    requires t1 >= MARK_EXCESS && rawlen <= |buf|
    requires rs != [] && k >= rs[0] && StreamAt(buf, rawlen, base + 1, rs[1..], t1, k - rs[0])
    ensures StreamAt(buf, rawlen, base, rs, t1, k)
  {
    hide RcLevel;
    var mark := base % 2 == 1;
    assert (base + 1) % 2 == 1 <==> !mark;
    var rest := Blocks(rs[1..], !mark);
    assert Blocks(rs, mark) == Block(mark, rs[0]) + rest;
    assert PositionOf(rs, base, k) == PositionOf(rs[1..], base + 1, k - rs[0]);
    assert PositionOf(rs, base, k + 1) == PositionOf(rs[1..], base + 1, k - rs[0] + 1);
  }

  lemma StartOf(buf: seq<nat>, rawlen: nat, base: nat, rs: seq<nat>, t1: nat)
    requires t1 >= MARK_EXCESS && Reads(buf, rawlen, base, rs, t1)
    ensures PositionOf(rs, base, 0) == Position(base, 0)
  {
    if rs != [] {
      assert rs[0] >= 1;
    }
  }
}
