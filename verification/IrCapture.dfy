/** Through the air: what the recording of a frame looks like, and which tolerance windows it meets. */
module IrCapture {
  import opened Arithmetic
  import opened IrSignal
  import opened IrSampler
  import opened IrDecoders
  import Sequences

  /** What the detector shows, tick by tick: the frame as sensed, and then silence. */
  function Air(frame: seq<Segment>, lag: nat -> nat, phase: nat, silence: nat): seq<bool> {
    Samples(Sensed(Widths(frame), lag), true, phase) + Block(false, silence)
  }

  /** Widths that survive the sensor, none of them a gap. */
  predicate Audible(ws: seq<nat>) {
    && ws != []
    && forall i | 0 <= i < |ws| :: 200 <= ws[i] && (if i % 2 == 0 then ws[i] <= 20000 else ws[i] <= 5000)
  }

  /** The widths up to the last mark. */
  function UpToLastMark(ws: seq<nat>): seq<nat> {
    if ws != [] && |ws| % 2 == 0 then ws[..|ws| - 1] else ws
  }

  /** The excess that the tolerance of the receiver is built for, more or less. */
  predicate UsualExcess(excess: nat) {
    50 <= excess <= 150
  }

  /** It may be another one for every mark and space. */
  ghost predicate UsualLag(lag: nat -> nat) {
    forall i :: UsualExcess(lag(i))
  }

  /** `counts` is a recording of marks and spaces of widths `ws`. */
  predicate Recording(ws: seq<nat>, lag: nat -> nat, counts: seq<nat>) {
    |counts| == |ws| && forall i | 0 <= i < |ws| :: SeenFor(if i % 2 == 0 then ws[i] + lag(i) else ws[i] - lag(i), counts[i])
  }

  /** An idle receiver, whose gap timer is high enough, records a frame sent to it: whatever the phase of its ticks and
      the lag of its sensor, and however long the silence afterwards, if it is a gap. */
  lemma FrameIsRecorded(s: Sampler, frame: seq<Segment>, lag: nat -> nat, phase: nat, silence: nat) returns (counts: seq<nat>)
    requires Valid(s) && s.rcvstate.Idle? && (s.timer + 1) % WORD16 >= GAP_TICKS
    requires Audible(Widths(frame)) && |Widths(frame)| < RAWBUF
    requires UsualLag(lag) && phase < USECPERTICK && silence > GAP_TICKS + 1
    ensures Holds(Run(s, Air(frame, lag, phase, silence)), (s.timer + 1) % WORD16, counts)
    ensures Recording(UpToLastMark(Widths(frame)), lag, counts)
  {
    hide Run, Holds, Samples, Blocks, Widths, AllSeenFor, Recordable, Recording, Audible;
    var ws := Widths(frame);
    SensedIsWide(ws, lag);
    var all := SamplesAreBlocks(Sensed(ws, lag), true, phase);
    counts := AsRecorded(ws, lag, all, silence);
    CaptureHolds(s, counts, silence + |Blocks(all, true)| - |Blocks(counts, true)|);
  }

  lemma SensedIsWide(ws: seq<nat>, lag: nat -> nat)
    requires Audible(ws) && UsualLag(lag)
    ensures forall i :: 0 <= i < |ws| ==> Sensed(ws, lag)[i] >= USECPERTICK
  {
  }

  /** What is recorded of `all` widths before a silence. */
  predicate Records(all: seq<nat>, silence: nat, counts: seq<nat>) {
    && |Blocks(counts, true)| <= |Blocks(all, true)|
    && Blocks(all, true) + Block(false, silence) ==
       Blocks(counts, true) + Block(false, silence + |Blocks(all, true)| - |Blocks(counts, true)|)
  }

  /** A last space cannot be told from the silence after it. */
  lemma AsRecorded(ws: seq<nat>, lag: nat -> nat, all: seq<nat>, silence: nat) returns (counts: seq<nat>)
    requires Audible(ws) && UsualLag(lag) && AllSeenFor(Sensed(ws, lag), all)
    requires forall i :: 0 <= i < |all| ==> all[i] > 0
    ensures |counts| % 2 == 1 && |counts| <= |ws| && Recordable(counts, true) && Recording(UpToLastMark(ws), lag, counts)
    ensures Records(all, silence, counts)
  {
    hide Blocks, Recordable, Recording, Sensed, AllSeenFor, Audible, UsualLag, Records;
    SensedLength(ws, lag, all);
    SeenIsRecordable(ws, lag, all, 0);
    RecordingOf(ws, lag, all);
    assert all[0..] == all;
    if |ws| % 2 == 1 {
      counts := all;
      AllRecorded(all, silence);
    } else {
      counts := all[..|all| - 1];
      RecordablePrefix(all, |all| - 1, true);
      AllButLastRecorded(all, silence);
    }
  }

  lemma AllRecorded(all: seq<nat>, silence: nat)
    ensures Records(all, silence, all)
  {
  }

  lemma AllButLastRecorded(all: seq<nat>, silence: nat)
    requires |all| > 0 && |all| % 2 == 0
    ensures Records(all, silence, all[..|all| - 1])
  {
    hide Blocks;
    LastSpaceIsSilence(all, silence);
  }

  lemma SensedLength(ws: seq<nat>, lag: nat -> nat, all: seq<nat>)
    requires Audible(ws) && AllSeenFor(Sensed(ws, lag), all)
    ensures |all| == |ws| > 0
  {
  }

  lemma RecordingOf(ws: seq<nat>, lag: nat -> nat, counts: seq<nat>)
    requires AllSeenFor(Sensed(ws, lag), counts)
    ensures Recording(ws, lag, counts)
    ensures forall n :: 0 <= n <= |ws| ==> Recording(ws[..n], lag, counts[..n])
  {
    forall i | 0 <= i < |ws| ensures SeenFor(if i % 2 == 0 then ws[i] + lag(i) else ws[i] - lag(i), counts[i]) {
      assert SeenFor(Sensed(ws, lag)[i], counts[i]);
    }
  }

  lemma LastSpaceIsSilence(counts: seq<nat>, silence: nat)
    requires |counts| > 0 && |counts| % 2 == 0
    ensures var n := |counts| - 1;
            && Blocks(counts, true) + Block(false, silence) == Blocks(counts[..n], true) + Block(false, silence + counts[n])
            && |Blocks(counts, true)| == |Blocks(counts[..n], true)| + counts[n]
  {
    hide Blocks;
    var n := |counts| - 1;
    BlocksSplit(counts, n, true);
    OneBlock(counts[n], false);
    assert counts[n..] == [counts[n]] && n % 2 == 1;
    var a, b, c := Blocks(counts[..n], true), Block(false, counts[n]), Block(false, silence);
    assert a + b + c == a + (b + c);
    assert b + c == Block(false, silence + counts[n]);
  }

  lemma OneBlock(n: nat, mark: bool)
    ensures Blocks([n], mark) == Block(mark, n)
  {
    assert [n][1..] == [];
  }

  lemma SeenInRange(ws: seq<nat>, lag: nat -> nat, counts: seq<nat>, k: nat)
    requires Audible(ws) && UsualLag(lag) && AllSeenFor(Sensed(ws, lag), counts) && k < |ws|
    requires forall i :: 0 <= i < |counts| ==> counts[i] > 0
    ensures |counts| == |ws| && 0 < counts[k] < WORD16 && (k % 2 == 0 || counts[k] <= GAP_TICKS)
  {
    assert SeenFor(Sensed(ws, lag)[k], counts[k]);
  }

  lemma RecordableFirst(counts: seq<nat>, k: nat)
    requires k < |counts| && 0 < counts[k] < WORD16 && (k % 2 == 0 || counts[k] <= GAP_TICKS)
    requires Recordable(counts[k + 1..], (k + 1) % 2 == 0)
    ensures Recordable(counts[k..], k % 2 == 0)
  {
    assert counts[k..][0] == counts[k] && counts[k..][1..] == counts[k + 1..];
  }

  lemma {:induction false} SeenIsRecordable(ws: seq<nat>, lag: nat -> nat, counts: seq<nat>, k: nat)
    requires Audible(ws) && UsualLag(lag) && AllSeenFor(Sensed(ws, lag), counts) && k <= |ws|
    requires forall i :: 0 <= i < |counts| ==> counts[i] > 0
    ensures Recordable(counts[k..], k % 2 == 0)
    decreases |ws| - k
  {
    SensedLength(ws, lag, counts);
    if k == |ws| {
      assert counts[k..] == [];
    } else {
      hide Audible, UsualLag, AllSeenFor, Sensed, Recordable;
      SeenIsRecordable(ws, lag, counts, k + 1);
      SeenInRange(ws, lag, counts, k);
      RecordableFirst(counts, k);
    }
  }

  lemma BlocksFirst(counts: seq<nat>, mark: bool)
    requires counts != []
    ensures Blocks(counts, mark) == Block(mark, counts[0]) + Blocks(counts[1..], !mark)
  {
  }

  /** The level of run number `n`. */
  predicate LevelOfRun(mark: bool, n: nat) {
    if n % 2 == 0 then mark else !mark
  }

  lemma LevelOfRunRest(mark: bool, n: nat)
    requires n > 0
    ensures LevelOfRun(mark, n) == LevelOfRun(!mark, n - 1)
  {
  }

  lemma {:induction false} BlocksSplit(counts: seq<nat>, n: nat, mark: bool)
    requires n <= |counts|
    ensures Blocks(counts, mark) == Blocks(counts[..n], mark) + Blocks(counts[n..], LevelOfRun(mark, n))
    decreases n
  {
    if n == 0 {
      assert counts[..0] == [] && counts[0..] == counts;
    } else {
      hide Blocks, Block, LevelOfRun;
      BlocksSplit(counts[1..], n - 1, !mark);
      LevelOfRunRest(mark, n);
      BlocksFirst(counts, mark);
      Sequences.SplitRest(counts, n);
      BlocksFirst(counts[..n], mark);
      Sequences.Associate(Block(mark, counts[0]), Blocks(counts[..n][1..], !mark), Blocks(counts[n..], LevelOfRun(mark, n)));
    }
  }

  lemma {:induction false} RecordablePrefix(counts: seq<nat>, n: nat, mark: bool)
    requires n <= |counts| && Recordable(counts, mark)
    ensures Recordable(counts[..n], mark)
    decreases n
  {
    if n > 0 {
      RecordablePrefix(counts[1..], n - 1, !mark);
      assert counts[..n][1..] == counts[1..][..n - 1];
    }
  }

  lemma WidthsSnoc(gs: seq<Segment>, g: Segment)
    ensures Widths(gs + [g]) == Extend(Widths(gs), g)
  {
    assert (gs + [g])[..|gs|] == gs;
  }

  // ---- the buffer of a sampler that has stopped ----

  /** The buffer of a sampler that holds `counts`. */
  predicate InBuffer(buf: seq<nat>, counts: seq<nat>) {
    |buf| == RAWBUF && |counts| < RAWBUF && buf[1..|counts| + 1] == counts
  }

  lemma EntryAt(buf: seq<nat>, counts: seq<nat>, i: nat)
    requires InBuffer(buf, counts) && i < |counts|
    ensures buf[i + 1] == counts[i]
  {
    assert buf[1..|counts| + 1][i] == buf[i + 1];
  }

  /** One entry of a recording, as the decoders see it. */
  predicate Entry(buf: seq<nat>, i: nat, w: nat, lag: nat -> nat)
    requires 0 < i < |buf|
  {
    SeenFor(if i % 2 == 1 then w + lag(i - 1) else w - lag(i - 1), buf[i])
  }

  lemma EntrySeen(buf: seq<nat>, ws: seq<nat>, lag: nat -> nat, counts: seq<nat>, i: nat)
    requires InBuffer(buf, counts) && Recording(ws, lag, counts) && 1 <= i <= |ws|
    ensures Entry(buf, i, ws[i - 1], lag)
  {
    EntryAt(buf, counts, i - 1);
  }

  lemma BufferLength(buf: seq<nat>, counts: seq<nat>)
    requires InBuffer(buf, counts)
    ensures |buf| == RAWBUF && |counts| + 1 <= RAWBUF
  {
  }

  // ---- tolerance windows ----

  lemma MarkMatches(w: nat, excess: nat, c: nat)
    requires w >= 100 && UsualExcess(excess) && SeenFor(w + excess, c)
    ensures MatchMark(c, w)
  {
  }

  lemma SpaceMatches(w: nat, excess: nat, c: nat)
    requires w >= 300 && UsualExcess(excess) && SeenFor(w - excess, c)
    ensures MatchSpace(c, w)
  {
  }

  /** A space of width `w` is too short to pass for one of width `other`. */
  lemma ShorterSpace(w: nat, excess: nat, c: nat, other: nat)
    requires UsualExcess(excess) && SeenFor(w - excess, c) && other >= 100 && w <= USECPERTICK * TicksLow(other - 100)
    ensures !MatchSpace(c, other)
  {
  }

  lemma ShorterMark(w: nat, excess: nat, c: nat, other: nat)
    requires UsualExcess(excess) && SeenFor(w + excess, c) && w + 200 <= USECPERTICK * TicksLow(other + 100)
    ensures !MatchMark(c, other)
  {
  }
}
