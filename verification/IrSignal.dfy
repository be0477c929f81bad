/** Infrared signals: what a sender puts on the air, what a sensor with lag makes of it,
    and what a timer tick of 50 microseconds sees of that. */
module IrSignal {
  const USECPERTICK := 50

  /** A mark or a space held for `us` microseconds. */
  datatype Segment = Segment(mark: bool, us: nat)

  function Mark(us: nat): Segment { Segment(true, us) }
  function Space(us: nat): Segment { Segment(false, us) }

  /** The widths of the alternating marks and spaces of a signal that starts with a mark: neighbours of one level merge,
      and space before the first mark belongs to the gap. */
  function Extend(ws: seq<nat>, g: Segment): seq<nat> {
    if g.us == 0 then ws
    else if ws == [] then (if g.mark then [g.us] else [])
    else if (|ws| % 2 == 1) == g.mark then ws[|ws| - 1 := ws[|ws| - 1] + g.us]
    else ws + [g.us]
  }

  function Widths(gs: seq<Segment>): seq<nat>
    decreases |gs|
  {
    if gs == [] then [] else Extend(Widths(gs[..|gs| - 1]), gs[|gs| - 1])
  }

  /** Sensor lag makes mark or space number `i` longer or shorter by `lag(i)`. */
  function Sensed(ws: seq<nat>, lag: nat -> nat): seq<int> {
    seq(|ws|, i requires 0 <= i < |ws| => if i % 2 == 0 then ws[i] + lag(i) else ws[i] - lag(i))
  }

  /** The levels seen by samples taken every tick, the first of them `phase` after the start of the first width,
      which is a mark or a space as `mark` says. */
  function Samples(ws: seq<int>, mark: bool, phase: nat): seq<bool>
    decreases |ws|, if ws == [] || phase >= ws[0] then 0 else ws[0] - phase
  {
    if ws == [] then []
    else if phase >= ws[0] then (if ws[0] < 0 then [] else Samples(ws[1..], !mark, phase - ws[0]))
    else [mark] + Samples(ws, mark, phase + USECPERTICK)
  }

  /** `n` samples in a row of one level. */
  function Block(level: bool, n: nat): seq<bool> {
    seq(n, _ => level)
  }

  function Blocks(counts: seq<nat>, mark: bool): seq<bool>
    decreases |counts|
  {
    if counts == [] then [] else Block(mark, counts[0]) + Blocks(counts[1..], !mark)
  }

  /** A width of `w` may be seen for `c` ticks. */
  predicate SeenFor(w: int, c: nat) {
    USECPERTICK * (c - 1) < w < USECPERTICK * (c + 1)
  }

  predicate AllSeenFor(ws: seq<int>, counts: seq<nat>) {
    |ws| == |counts| && forall i | 0 <= i < |ws| :: SeenFor(ws[i], counts[i])
  }

  /** The number of samples in a width `w`, the first of them at `phase`. */
  function SampleCount(w: int, phase: nat): nat
    decreases if phase >= w then 0 else w - phase
  {
    if phase >= w then 0 else 1 + SampleCount(w, phase + USECPERTICK)
  }

  lemma {:induction false} SampleCountBounds(w: int, phase: nat)
    ensures var c := SampleCount(w, phase);
            && phase + 50 * c >= w
            && (c > 0 ==> phase + 50 * (c - 1) < w)
    decreases if phase >= w then 0 else w - phase
  {
    if phase < w {
      SampleCountBounds(w, phase + USECPERTICK);
    }
  }

  lemma FirstSample(ws: seq<int>, mark: bool, phase: nat)
    requires ws != [] && phase < ws[0]
    ensures SampleCount(ws[0], phase) == 1 + SampleCount(ws[0], phase + USECPERTICK)
    ensures Samples(ws, mark, phase) == [mark] + Samples(ws, mark, phase + USECPERTICK)
  {
  }

  lemma NoSample(ws: seq<int>, mark: bool, phase: nat)
    requires ws != [] && 0 <= ws[0] <= phase
    ensures SampleCount(ws[0], phase) == 0 && Samples(ws, mark, phase) == Block(mark, 0) + Samples(ws[1..], !mark, phase - ws[0])
  {
    assert Block(mark, 0) == [];
  }

  lemma {:induction false} OneWidth(ws: seq<int>, mark: bool, phase: nat)
    requires ws != [] && ws[0] >= 0
    ensures var c := SampleCount(ws[0], phase);
            && phase + USECPERTICK * c >= ws[0]
            && Samples(ws, mark, phase) == Block(mark, c) + Samples(ws[1..], !mark, phase + USECPERTICK * c - ws[0])
    decreases if phase >= ws[0] then 0 else ws[0] - phase
  {
    hide SampleCount, Samples, Block;
    SampleCountBounds(ws[0], phase);
    if phase < ws[0] {
      FirstSample(ws, mark, phase);
      OneWidth(ws, mark, phase + USECPERTICK);
      var c := SampleCount(ws[0], phase);
      BlockGrows(mark, c, Samples(ws[1..], !mark, phase + USECPERTICK * c - ws[0]));
    } else {
      NoSample(ws, mark, phase);
    }
  }

  lemma BlockGrows(mark: bool, c: nat, rest: seq<bool>)
    requires c > 0
    ensures Block(mark, c) + rest == [mark] + (Block(mark, c - 1) + rest)
  {
  }

  /** Whatever the phase of the sampling, every width is seen for its number of ticks, give or take one. */
  lemma {:induction false} SamplesAreBlocks(ws: seq<int>, mark: bool, phase: nat) returns (counts: seq<nat>)
    requires phase < USECPERTICK && forall i :: 0 <= i < |ws| ==> ws[i] >= USECPERTICK
    ensures AllSeenFor(ws, counts) && Samples(ws, mark, phase) == Blocks(counts, mark)
    ensures forall i :: 0 <= i < |counts| ==> counts[i] > 0 && 50 * (counts[i] - 1) < ws[i] < 50 * (counts[i] + 1)
    decreases |ws|
  {
    if ws == [] {
      counts := [];
    } else {
      var c := SampleCount(ws[0], phase);
      SampleCountBounds(ws[0], phase);
      OneWidth(ws, mark, phase);
      var rest := SamplesAreBlocks(ws[1..], !mark, phase + USECPERTICK * c - ws[0]);
      counts := [c] + rest;
      assert counts[1..] == rest;
      assert forall i :: 1 <= i < |ws| ==> ws[i] == ws[1..][i - 1];
    }
  }
}
