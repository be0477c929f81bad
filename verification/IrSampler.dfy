/** The timer interrupt of IRremote2: it run-length encodes the sampled signal. */
module IrSampler {
  import opened Arithmetic
  import opened IrSignal
  import Sequences

  const RAWBUF := 100
  const GAP_TICKS := 5000 / USECPERTICK

  datatype ReceiverState = Idle | InMark | InSpace | Stop

  /** What survives between two ticks. Of `rawbuf`, the first `rawlen` entries are the recording. */
  datatype Sampler = Sampler(rcvstate: ReceiverState, timer: nat, rawbuf: seq<nat>, rawlen: nat)

  predicate Valid(s: Sampler) {
    && |s.rawbuf| == RAWBUF && s.rawlen <= RAWBUF && s.timer < WORD16
    && (s.rcvstate.Idle? ==> s.rawlen == 0)
    && (s.rcvstate.InMark? ==> s.rawlen % 2 == 1)
    && (s.rcvstate.InSpace? ==> s.rawlen % 2 == 0 && s.rawlen >= 2)
  }

  /** Records the time since the last change of level, and starts timing the next one. */
  function Record(s: Sampler, next: ReceiverState): Sampler
    requires |s.rawbuf| == RAWBUF && s.rawlen < RAWBUF
  {
    Sampler(next, 0, s.rawbuf[s.rawlen := s.timer], s.rawlen + 1)
  }

  /** One tick, at which the detector shows a mark or a space. */
  function Tick(s: Sampler, mark: bool): (s': Sampler)
    requires Valid(s)
    ensures Valid(s')
  {
    var t := s.(timer := (s.timer + 1) % WORD16, rcvstate := if s.rawlen >= RAWBUF then Stop else s.rcvstate);
    match t.rcvstate
    case Idle =>
      if !mark then t
      else if t.timer < GAP_TICKS then t.(timer := 0)
      else Record(t.(rawlen := 0), InMark)
    case InMark => if mark then t else Record(t, InSpace)
    case InSpace => if mark then Record(t, InMark) else if t.timer > GAP_TICKS then t.(rcvstate := Stop) else t
    case Stop => if mark then t.(timer := 0) else t
  }

  function Run(s: Sampler, levels: seq<bool>): (s': Sampler)
    requires Valid(s)
    ensures Valid(s')
    decreases |levels|
  {
    if levels == [] then s else Tick(Run(s, levels[..|levels| - 1]), levels[|levels| - 1])
  }

  /** The lengths of the runs of equal levels. */
  function Runs(levels: seq<bool>): (rs: seq<nat>)
    ensures levels == [] <==> rs == []
    ensures forall i :: 0 <= i < |rs| ==> rs[i] > 0
    decreases |levels|
  {
    if levels == [] then []
    else
      var n := |levels| - 1;
      var rs := Runs(levels[..n]);
      if n > 0 && levels[n] == levels[n - 1] then rs[|rs| - 1 := rs[|rs| - 1] + 1] else rs + [1]
  }

  function Modulo(rs: seq<nat>): seq<nat> {
    seq(|rs|, i requires 0 <= i < |rs| => rs[i] % WORD16)
  }

  /** The recording after the gap holds the run lengths of `levels`, the ticks since the gap ended: all but the run under
      way while recording, as many as there were when it stopped. Run lengths are kept in 16 bits. */
  predicate Recorded(s: Sampler, levels: seq<bool>)
    requires Valid(s)
  {
    var rs := Runs(levels);
    && !s.rcvstate.Idle? && levels != [] && levels[0] && 1 <= s.rawlen <= |rs|
    && s.rawbuf[0] >= GAP_TICKS
    && s.rawbuf[1..s.rawlen] == Modulo(rs[..s.rawlen - 1])
    && (!s.rcvstate.Stop? ==>
          && s.rawlen == |rs| && s.timer == (rs[|rs| - 1] - 1) % WORD16
          && levels[|levels| - 1] == s.rcvstate.InMark?)
  }

  lemma RunsSnoc(levels: seq<bool>, x: bool)
    ensures var rs := Runs(levels);
            Runs(levels + [x]) ==
            if levels != [] && levels[|levels| - 1] == x then rs[|rs| - 1 := rs[|rs| - 1] + 1] else rs + [1]
  {
    assert (levels + [x])[..|levels|] == levels;
  }

  lemma SameRun(levels: seq<bool>, x: bool)
    requires levels != [] && levels[|levels| - 1] == x
    ensures var rs, rs' := Runs(levels), Runs(levels + [x]);
            |rs'| == |rs| && rs'[|rs| - 1] == rs[|rs| - 1] + 1 && rs'[..|rs| - 1] == rs[..|rs| - 1]
  {
    RunsSnoc(levels, x);
  }

  lemma NewRun(levels: seq<bool>, x: bool)
    requires levels != [] && levels[|levels| - 1] != x
    ensures var rs := Runs(levels); Runs(levels + [x]) == rs + [1]
  {
    RunsSnoc(levels, x);
  }

  lemma PrefixKept(rs: seq<nat>, rs': seq<nat>, n: nat)
    requires n < |rs| && |rs| <= |rs'| && rs'[..|rs| - 1] == rs[..|rs| - 1]
    ensures rs'[..n] == rs[..n]
  {
    assert rs'[..n] == rs'[..|rs| - 1][..n] && rs[..n] == rs[..|rs| - 1][..n];
  }

  /** A tick of the level that is being timed. */
  lemma RecordedSame(s: Sampler, levels: seq<bool>, x: bool)
    requires Valid(s) && Recorded(s, levels) && !s.rcvstate.Stop? && levels[|levels| - 1] == x
    ensures Recorded(Tick(s, x), levels + [x])
  {
    hide Runs;
    SameRun(levels, x);
    var rs, rs' := Runs(levels), Runs(levels + [x]);
    TimerCounts(rs[|rs| - 1]);
    PrefixKept(rs, rs', s.rawlen - 1);
    assert Tick(s, x).rawbuf == s.rawbuf && Tick(s, x).rawlen == s.rawlen;
  }

  lemma TimerCounts(r: nat)
    requires r > 0
    ensures ((r - 1) % WORD16 + 1) % WORD16 == r % WORD16
  {
  }

  /** A tick of the other level ends the run. */
  lemma RecordedChange(s: Sampler, levels: seq<bool>, x: bool)
    requires Valid(s) && Recorded(s, levels) && !s.rcvstate.Stop? && levels[|levels| - 1] != x && s.rawlen < RAWBUF
    ensures Recorded(Tick(s, x), levels + [x])
  {
    hide Runs;
    NewRun(levels, x);
    var rs, s' := Runs(levels), Tick(s, x);
    var n := s.rawlen;
    TimerCounts(rs[n - 1]);
    assert s'.rawlen == n + 1 && s'.rawbuf == s.rawbuf[n := rs[n - 1] % WORD16];
    assert (rs + [1])[..n] == rs[..n - 1] + [rs[n - 1]];
    assert s'.rawbuf[1..n + 1] == s.rawbuf[1..n] + [rs[n - 1] % WORD16];
    assert Modulo(rs[..n - 1] + [rs[n - 1]]) == Modulo(rs[..n - 1]) + [rs[n - 1] % WORD16];
  }

  /** Once stopped, or stopping because the buffer is full, the recording does not change. */
  lemma RecordedStopped(s: Sampler, levels: seq<bool>, x: bool)
    requires Valid(s) && Recorded(s, levels) && (s.rcvstate.Stop? || s.rawlen == RAWBUF)
    ensures Recorded(Tick(s, x), levels + [x])
  {
    hide Runs;
    var rs, rs' := Runs(levels), Runs(levels + [x]);
    if levels[|levels| - 1] == x {
      SameRun(levels, x);
    } else {
      NewRun(levels, x);
    }
    PrefixKept(rs, rs', s.rawlen - 1);
    assert Tick(s, x).rawbuf == s.rawbuf && Tick(s, x).rawlen == s.rawlen && Tick(s, x).rcvstate.Stop?;
  }

  lemma RecordedStep(s: Sampler, levels: seq<bool>, x: bool)
    requires Valid(s) && Recorded(s, levels)
    ensures Recorded(Tick(s, x), levels + [x])
  {
    hide Tick, Runs;
    if s.rcvstate.Stop? || s.rawlen == RAWBUF {
      RecordedStopped(s, levels, x);
    } else if levels[|levels| - 1] == x {
      RecordedSame(s, levels, x);
    } else {
      RecordedChange(s, levels, x);
    }
  }

  /** The ticks since the last mark. */
  function SinceMark(levels: seq<bool>): nat
    decreases |levels|
  {
    if levels == [] || levels[|levels| - 1] then 0 else 1 + SinceMark(levels[..|levels| - 1])
  }

  /** The same, if there were `timer` ticks without a mark before `levels`. */
  function Elapsed(timer: nat, levels: seq<bool>): nat {
    if true in levels then SinceMark(levels) else timer + |levels|
  }

  lemma ElapsedSnoc(timer: nat, levels: seq<bool>, x: bool)
    ensures Elapsed(timer, levels + [x]) == if x then 0 else Elapsed(timer, levels) + 1
  {
    assert (levels + [x])[..|levels|] == levels;
  }

  lemma RunLast(s: Sampler, levels: seq<bool>)
    requires Valid(s) && levels != []
    ensures Run(s, levels) == Tick(Run(s, levels[..|levels| - 1]), levels[|levels| - 1])
  {
  }

  /** A receiver that is not recording measures the time since the last mark, in 16 bits. */
  lemma {:induction false} ElapsedTicks(s: Sampler, levels: seq<bool>)
    requires Valid(s) && (s.rcvstate.Idle? || s.rcvstate.Stop?)
    ensures var s' := Run(s, levels);
            && (s.rcvstate.Stop? ==> s'.rcvstate.Stop? && s'.rawbuf == s.rawbuf && s'.rawlen == s.rawlen)
            && (s'.rcvstate == s.rcvstate ==> s'.timer == Elapsed(s.timer, levels) % WORD16)
    decreases |levels|
  {
    if levels == [] {
      SmallMod(s.timer, WORD16);
    } else {
      hide Elapsed, Run, Tick, Valid;
      var n := |levels| - 1;
      ElapsedTicks(s, levels[..n]);
      RunLast(s, levels);
      WaitingTick(Run(s, levels[..n]), levels[n]);
      Sequences.LastApart(levels);
      ElapsedSnoc(s.timer, levels[..n], levels[n]);
      NextTick(Elapsed(s.timer, levels[..n]));
    }
  }

  lemma WaitingTick(s: Sampler, x: bool)
    requires Valid(s)
    ensures var s' := Tick(s, x);
            && (s'.rcvstate.Idle? ==> s.rcvstate.Idle?)
            && (s.rcvstate.Stop? ==> s'.rcvstate.Stop? && s'.rawbuf == s.rawbuf && s'.rawlen == s.rawlen)
            && (s'.rcvstate == s.rcvstate && (s.rcvstate.Idle? || s.rcvstate.Stop?) ==>
                  s'.timer == if x then 0 else (s.timer + 1) % WORD16)
  {
  }

  lemma NextTick(n: nat)
    ensures (n % WORD16 + 1) % WORD16 == (n + 1) % WORD16
  {
  }

  lemma GapKept(s: Sampler, x: bool)
    requires Valid(s) && !s.rcvstate.Idle? && s.rawlen >= 1
    ensures |s.rawbuf| > 0 && |Tick(s, x).rawbuf| > 0
    ensures Tick(s, x).rawbuf[0] == s.rawbuf[0] && !Tick(s, x).rcvstate.Idle?
  {
  }

  /** What is recorded of `levels`: nothing yet, or the gap before tick `k` and the runs from there on. */
  predicate Explained(s: Sampler, levels: seq<bool>, k: nat)
    requires Valid(s) && k <= |levels|
  {
    var s' := Run(s, levels);
    s'.rcvstate.Idle? || (Recorded(s', levels[k..]) && s'.rawbuf[0] == (Elapsed(s.timer, levels[..k]) + 1) % WORD16)
  }

  /** For every tick sequence from a reset: either no gap has been accepted yet, or the last accepted gap is recorded as
      the ticks since the mark before it, and so are the ticks since the gap ended. */
  lemma {:induction false} EveryRunIsRecorded(s: Sampler, levels: seq<bool>) returns (k: nat)
    requires Valid(s) && s.rcvstate.Idle?
    ensures k <= |levels| && Explained(s, levels, k)
    decreases |levels|
  {
    if levels == [] {
      k := 0;
    } else {
      hide Run, Explained;
      var n := |levels| - 1;
      k := EveryRunIsRecorded(s, levels[..n]);
      if Run(s, levels[..n]).rcvstate.Idle? {
        k := n;
        ExplainedFirst(s, levels);
      } else {
        ExplainedNext(s, levels, k);
      }
    }
  }

  lemma ExplainedFirst(s: Sampler, levels: seq<bool>)
    requires Valid(s) && s.rcvstate.Idle? && levels != [] && Run(s, levels[..|levels| - 1]).rcvstate.Idle?
    ensures Explained(s, levels, |levels| - 1)
  {
    hide Tick, Recorded, Runs, Elapsed, Run;
    var n := |levels| - 1;
    RunLast(s, levels);
    assert levels[n..] == [levels[n]];
    FirstMark(Run(s, levels[..n]), levels[n]);
    ElapsedTicks(s, levels[..n]);
    NextTick(Elapsed(s.timer, levels[..n]));
  }

  lemma ExplainedNext(s: Sampler, levels: seq<bool>, k: nat)
    requires Valid(s) && levels != [] && k < |levels| && Explained(s, levels[..|levels| - 1], k)
    requires !Run(s, levels[..|levels| - 1]).rcvstate.Idle?
    ensures Explained(s, levels, k)
  {
    hide *;
    var n := |levels| - 1;
    var before, x := Run(s, levels[..n]), levels[n];
    RunLast(s, levels);
    ExplainedMeans(s, levels[..n], k);
    ExplainedMeans(s, levels, k);
    RecordedLength(before, levels[..n][k..]);
    RecordedStep(before, levels[..n][k..], x);
    GapKept(before, x);
    Sequences.LastOfRest(levels, k);
  }

  lemma ExplainedMeans(s: Sampler, levels: seq<bool>, k: nat)
    requires Valid(s) && k <= |levels|
    ensures Explained(s, levels, k) <==>
            var s' := Run(s, levels);
            s'.rcvstate.Idle? || (Recorded(s', levels[k..]) && |s'.rawbuf| > 0
                                  && s'.rawbuf[0] == (Elapsed(s.timer, levels[..k]) + 1) % WORD16)
  {
    hide Run, Recorded, Elapsed;
  }

  lemma RecordedLength(s: Sampler, levels: seq<bool>)
    requires Valid(s) && Recorded(s, levels)
    ensures s.rawlen >= 1
  {
  }

  lemma RunsOne(x: bool)
    ensures Runs([x]) == [1]
  {
    assert [x][..0] == [];
  }

  /** A gap that is long enough is accepted at the first mark. */
  lemma FirstMark(s: Sampler, x: bool)
    requires Valid(s) && s.rcvstate.Idle?
    ensures Tick(s, x).rcvstate.Idle? || (Recorded(Tick(s, x), [x]) && Tick(s, x).rawbuf[0] == (s.timer + 1) % WORD16)
    ensures x && (s.timer + 1) % WORD16 >= GAP_TICKS ==>
              Open(Tick(s, x), [x]) && Tick(s, x).rawbuf[0] == (s.timer + 1) % WORD16
  {
    RunsOne(x);
    hide Runs;
    var s' := Tick(s, x);
    assert Modulo([1][..0]) == [];
    assert s'.rawbuf[1..1] == [];
    assert s'.rcvstate.Idle? || (x && s'.rawlen == 1 && s'.timer == 0 && s'.rcvstate.InMark?);
  }

  // ---- captures ----

  /** Still recording. */
  predicate Open(s: Sampler, levels: seq<bool>)
    requires Valid(s)
  {
    Recorded(s, levels) && !s.rcvstate.Stop?
  }

  lemma {:induction false} RunConcat(s: Sampler, a: seq<bool>, b: seq<bool>)
    requires Valid(s)
    ensures Run(s, a + b) == Run(Run(s, a), b)
    decreases |b|
  {
    hide Tick;
    if b == [] {
      assert a + b == a;
    } else {
      var n := |b| - 1;
      assert (a + b)[..|a + b| - 1] == a + b[..n];
      RunConcat(s, a, b[..n]);
    }
  }

  lemma RunOne(s: Sampler, x: bool)
    requires Valid(s)
    ensures Run(s, [x]) == Tick(s, x)
  {
    assert [x][..0] == [];
  }

  /** The same level again is still recorded, unless it is a space that has become a gap, or the buffer is full. */
  lemma OpenSame(s: Sampler, levels: seq<bool>, x: bool)
    requires Valid(s) && Open(s, levels) && levels[|levels| - 1] == x && s.rawlen < RAWBUF
    requires x || Runs(levels)[|Runs(levels)| - 1] <= GAP_TICKS
    ensures Open(Tick(s, x), levels + [x]) && Tick(s, x).rawbuf == s.rawbuf && Tick(s, x).rawlen == s.rawlen
  {
    hide Runs;
    RecordedSame(s, levels, x);
  }

  lemma OpenChange(s: Sampler, levels: seq<bool>, x: bool)
    requires Valid(s) && Open(s, levels) && levels[|levels| - 1] != x && s.rawlen < RAWBUF
    ensures Open(Tick(s, x), levels + [x])
    ensures Tick(s, x).rawlen == s.rawlen + 1 && Tick(s, x).rawbuf[0] == s.rawbuf[0]
  {
    hide Runs;
    RecordedChange(s, levels, x);
  }

  /** A further run of `n` ticks. */
  lemma {:induction false} OpenBlock(s: Sampler, levels: seq<bool>, x: bool, n: nat)
    requires Valid(s) && Open(s, levels) && n > 0
    requires levels != [] && levels[|levels| - 1] != x
    requires s.rawlen < RAWBUF && (n > 1 ==> s.rawlen + 1 < RAWBUF) && (x || n <= GAP_TICKS + 1)
    ensures Open(Run(s, Block(x, n)), levels + Block(x, n))
    ensures Run(s, Block(x, n)).rawlen == s.rawlen + 1 && Run(s, Block(x, n)).rawbuf[0] == s.rawbuf[0]
    ensures Runs(levels + Block(x, n)) == Runs(levels) + [n]
  {
    hide Tick, Runs, Recorded, Run;
    if n == 1 {
      assert Block(x, 1) == [x];
      RunOne(s, x);
      OpenChange(s, levels, x);
      NewRun(levels, x);
    } else {
      OpenBlock(s, levels, x, n - 1);
      var s1, levels1 := Run(s, Block(x, n - 1)), levels + Block(x, n - 1);
      assert Block(x, n) == Block(x, n - 1) + [x];
      assert levels + Block(x, n) == levels1 + [x];
      RunConcat(s, Block(x, n - 1), [x]);
      RunOne(s1, x);
      OpenSame(s1, levels1, x);
      SameRun(levels1, x);
      var rs' := Runs(levels1 + [x]);
      assert rs' == rs'[..|rs'| - 1] + [n];
      assert (Runs(levels) + [n - 1])[..|rs'| - 1] == Runs(levels);
    }
  }

  /** Run lengths that fit the buffer and contain no gap; `mark` tells whether the first one is of marks. */
  predicate Recordable(counts: seq<nat>, mark: bool)
    decreases |counts|
  {
    counts == [] ||
    (0 < counts[0] < WORD16 && (mark || counts[0] <= GAP_TICKS) && Recordable(counts[1..], !mark))
  }

  /** Further runs of alternating level. */
  lemma {:induction false} OpenBlocks(s: Sampler, levels: seq<bool>, counts: seq<nat>, mark: bool)
    requires Valid(s) && Open(s, levels) && Recordable(counts, mark)
    requires levels != [] && levels[|levels| - 1] != mark
    requires s.rawlen + |counts| < RAWBUF
    ensures StillOpen(s, levels, Blocks(counts, mark), counts)
    ensures var all := levels + Blocks(counts, mark); all[|all| - 1] == AfterRuns(|counts|, mark)
    decreases |counts|
  {
    hide *;
    if counts == [] {
      OpenNone(s, levels, mark);
    } else {
      var b, rest := Block(mark, counts[0]), counts[1..];
      FirstRecordable(counts, mark);
      OpenFirst(s, levels, counts[0], mark, |rest|);
      OpenBlocks(Run(s, b), levels + b, rest, !mark);
      StillOpenThen(s, levels, b, [counts[0]], Blocks(rest, !mark), rest);
      AfterRunsRest(|counts|, mark);
      Sequences.Associate(levels, b, Blocks(rest, !mark));
    }
  }

  lemma FirstRecordable(counts: seq<nat>, mark: bool)
    requires counts != [] && Recordable(counts, mark)
    ensures counts[0] > 0 && (mark || counts[0] <= GAP_TICKS) && Recordable(counts[1..], !mark)
    ensures Blocks(counts, mark) == Block(mark, counts[0]) + Blocks(counts[1..], !mark)
    ensures counts == [counts[0]] + counts[1..] && |counts| == 1 + |counts[1..]|
  {
  }

  lemma OpenNone(s: Sampler, levels: seq<bool>, mark: bool)
    requires Valid(s) && Open(s, levels) && levels != [] && levels[|levels| - 1] != mark
    ensures StillOpen(s, levels, Blocks([], mark), [])
    ensures var all := levels + Blocks([], mark); all != [] && all[|all| - 1] == AfterRuns(0, mark)
  {
    hide Runs, Run, Open;
    RunNothing(s);
    assert levels + [] == levels;
  }

  lemma OpenFirst(s: Sampler, levels: seq<bool>, c: nat, mark: bool, more: nat)
    requires Valid(s) && Open(s, levels) && levels != [] && levels[|levels| - 1] != mark
    requires c > 0 && (mark || c <= GAP_TICKS) && s.rawlen + 1 + more < RAWBUF
    ensures StillOpen(s, levels, Block(mark, c), [c])
    ensures Open(Run(s, Block(mark, c)), levels + Block(mark, c)) && Run(s, Block(mark, c)).rawlen + more < RAWBUF
    ensures var all := levels + Block(mark, c); all != [] && all[|all| - 1] == mark
  {
    hide Run, Runs, Open;
    OpenBlock(s, levels, mark, c);
  }

  lemma StillOpenThen(s: Sampler, levels: seq<bool>, b: seq<bool>, c: seq<nat>, more: seq<bool>, rest: seq<nat>)
    requires Valid(s) && StillOpen(s, levels, b, c) && StillOpen(Run(s, b), levels + b, more, rest)
    ensures StillOpen(s, levels, b + more, c + rest)
  {
    hide Run, Runs, Open, Valid;
    RunConcat(s, b, more);
    Sequences.Associate(levels, b, more);
    Sequences.Associate(Runs(levels), c, rest);
  }

  /** After the ticks `bs` the recording goes on, and holds the further runs `counts`. */
  predicate StillOpen(s: Sampler, levels: seq<bool>, bs: seq<bool>, counts: seq<nat>)
    requires Valid(s)
  {
    && Open(Run(s, bs), levels + bs)
    && Run(s, bs).rawlen == s.rawlen + |counts| && Run(s, bs).rawbuf[0] == s.rawbuf[0]
    && Runs(levels + bs) == Runs(levels) + counts
  }

  /** The level in which `n` further runs end, the first of which has the level `mark`. */
  predicate AfterRuns(n: nat, mark: bool) {
    if n % 2 == 0 then !mark else mark
  }

  lemma AfterRunsRest(n: nat, mark: bool)
    requires n > 0
    ensures AfterRuns(n, mark) == AfterRuns(n - 1, !mark)
  {
  }

  lemma RunNothing(s: Sampler)
    requires Valid(s)
    ensures Run(s, []) == s
  {
  }

  /** A recording `raw` after a gap of `gap` ticks, complete and waiting to be decoded. */
  predicate Holds(s: Sampler, gap: nat, counts: seq<nat>) {
    && |s.rawbuf| == RAWBUF && s.rcvstate.Stop? && s.rawlen == |counts| + 1 <= RAWBUF
    && s.rawbuf[0] == gap && s.rawbuf[1..s.rawlen] == counts
  }

  lemma SilentTick(s: Sampler)
    requires Valid(s) && (s.rcvstate.Stop? || (s.rcvstate.InSpace? && s.timer <= GAP_TICKS))
    ensures var s' := Tick(s, false);
            && s'.rawbuf == s.rawbuf && s'.rawlen == s.rawlen
            && (s'.rcvstate.Stop? || (s'.rcvstate.InSpace? && s'.timer == s.timer + 1 <= GAP_TICKS))
  {
  }

  /** Silence after a mark has been recorded changes nothing but the timer, until it is long enough to stop. */
  lemma {:induction false} SilenceStops(s: Sampler, n: nat)
    requires Valid(s) && s.rcvstate.InSpace? && s.timer == 0
    ensures var s' := Run(s, Block(false, n));
            && s'.rawbuf == s.rawbuf && s'.rawlen == s.rawlen
            && (s'.rcvstate.Stop? || (s'.rcvstate.InSpace? && s'.timer == n && n <= GAP_TICKS))
    decreases n
  {
    RunNothing(s);
    hide Run, Tick;
    if n == 0 {
      assert Block(false, 0) == [];
    } else {
      SilenceStops(s, n - 1);
      assert Block(false, n) == Block(false, n - 1) + [false];
      RunConcat(s, Block(false, n - 1), [false]);
      RunOne(Run(s, Block(false, n - 1)), false);
      SilentTick(Run(s, Block(false, n - 1)));
    }
  }

  lemma RecordedCounts(s: Sampler, levels: seq<bool>, counts: seq<nat>)
    requires Valid(s) && Open(s, levels) && levels != [] && levels[|levels| - 1]
    requires Runs(levels) == counts && Recordable(counts, true) && s.rawlen < RAWBUF
    ensures var s' := Tick(s, false);
            && s'.rcvstate.InSpace? && s'.timer == 0 && s'.rawlen == |counts| + 1
            && s'.rawbuf[1..s'.rawlen] == counts && s'.rawbuf[0] == s.rawbuf[0]
  {
    hide Runs, Recordable;
    RecordableBounds(counts, true);
    RecordedChange(s, levels, false);
    NewRun(levels, false);
    var s' := Tick(s, false);
    assert s'.rawlen == s.rawlen + 1 == |counts| + 1 && s'.rcvstate.InSpace? && s'.timer == 0;
    ModuloIs(counts);
    assert (counts + [1])[..|counts|] == counts;
  }

  lemma ModuloIs(counts: seq<nat>)
    requires forall i :: 0 <= i < |counts| ==> counts[i] < WORD16
    ensures Modulo(counts) == counts
  {
  }

  lemma {:induction false} RecordableBounds(counts: seq<nat>, mark: bool)
    requires Recordable(counts, mark)
    ensures forall i :: 0 <= i < |counts| ==> 0 < counts[i] < WORD16
    decreases |counts|
  {
    if counts != [] {
      RecordableBounds(counts[1..], !mark);
      assert forall i :: 1 <= i < |counts| ==> counts[i] == counts[1..][i - 1];
    }
  }

  /** An idle receiver that has seen a gap records a signal of an odd number of runs, and stops at the silence after it. */
  lemma CaptureHolds(s: Sampler, counts: seq<nat>, silence: nat)
    requires Valid(s) && s.rcvstate.Idle? && (s.timer + 1) % WORD16 >= GAP_TICKS
    requires Recordable(counts, true) && |counts| % 2 == 1 && |counts| < RAWBUF && silence > GAP_TICKS + 1
    ensures Holds(Run(s, Blocks(counts, true) + Block(false, silence)), (s.timer + 1) % WORD16, counts)
  {
    hide Tick, Runs, Run, Blocks, Block, Recordable, Open, Holds;
    SignalOpen(s, counts);
    var bs := Blocks(counts, true);
    RecordedCounts(Run(s, bs), bs, counts);
    StopsAfter(s, bs, silence, counts);
  }

  /** The signal up to the silence. */
  lemma SignalOpen(s: Sampler, counts: seq<nat>)
    requires Valid(s) && s.rcvstate.Idle? && (s.timer + 1) % WORD16 >= GAP_TICKS
    requires Recordable(counts, true) && |counts| % 2 == 1 && |counts| < RAWBUF
    ensures var bs := Blocks(counts, true);
            && bs != [] && bs[|bs| - 1] && Open(Run(s, bs), bs) && Runs(bs) == counts
            && Run(s, bs).rawlen == |counts| && Run(s, bs).rawbuf[0] == (s.timer + 1) % WORD16
  {
    hide *;
    var b, rest := Block(true, counts[0]), counts[1..];
    FirstRecordable(counts, true);
    var s1 := FirstBlock(s, counts[0]);
    OpenBlocks(s1, b, rest, false);
    RunConcat(s, b, Blocks(rest, false));
    SignalLevels(s, s1, counts, b, Blocks(rest, false));
  }

  lemma SignalLevels(s: Sampler, s1: Sampler, counts: seq<nat>, b: seq<bool>, bs: seq<bool>)
    requires Valid(s) && Valid(s1) && |counts| % 2 == 1 && b != [] && Runs(b) == [counts[0]]
    requires StillOpen(s1, b, bs, counts[1..]) && s1.rawlen == 1 && Run(s, b + bs) == Run(s1, bs)
    requires (b + bs)[|b + bs| - 1] == AfterRuns(|counts| - 1, false)
    ensures var all := b + bs;
            && all != [] && all[|all| - 1] && Open(Run(s, all), all) && Runs(all) == counts
            && Run(s, all).rawlen == |counts| && |Run(s, all).rawbuf| == |s1.rawbuf| == RAWBUF
            && Run(s, all).rawbuf[0] == s1.rawbuf[0]
  {
    hide Run, Runs, Open, AfterRuns, Valid, StillOpen;
    OddRuns(|counts|);
    StillOpenMeans(s1, b, bs, counts[1..]);
    Sequences.FirstApart(counts);
  }

  lemma OddRuns(n: nat)
    requires n % 2 == 1
    ensures AfterRuns(n - 1, false)
  {
  }

  lemma StillOpenMeans(s: Sampler, levels: seq<bool>, bs: seq<bool>, counts: seq<nat>)
    requires Valid(s) && StillOpen(s, levels, bs, counts)
    ensures Open(Run(s, bs), levels + bs)
    ensures Run(s, bs).rawlen == s.rawlen + |counts|
    ensures |s.rawbuf| == |Run(s, bs).rawbuf| == RAWBUF && Run(s, bs).rawbuf[0] == s.rawbuf[0]
    ensures Runs(levels + bs) == Runs(levels) + counts
  {
    hide Run, Runs, Open;
  }

  lemma StopsAfter(s: Sampler, bs: seq<bool>, silence: nat, counts: seq<nat>)
    requires Valid(s) && silence > GAP_TICKS + 1
    requires var s' := Tick(Run(s, bs), false);
             && s'.rcvstate.InSpace? && s'.timer == 0 && s'.rawlen == |counts| + 1
             && s'.rawbuf[1..s'.rawlen] == counts
    ensures Holds(Run(s, bs + Block(false, silence)), Tick(Run(s, bs), false).rawbuf[0], counts)
  {
    hide Tick, Run;
    var s2 := Run(s, bs);
    SilenceStops(Tick(s2, false), silence - 1);
    assert Block(false, silence) == [false] + Block(false, silence - 1);
    RunConcat(s, bs, Block(false, silence));
    RunConcat(s2, [false], Block(false, silence - 1));
    RunOne(s2, false);
  }

  lemma FirstBlock(s: Sampler, n: nat) returns (s': Sampler)
    requires Valid(s) && s.rcvstate.Idle? && (s.timer + 1) % WORD16 >= GAP_TICKS && n > 0
    ensures s' == Run(s, Block(true, n)) && Open(s', Block(true, n)) && Runs(Block(true, n)) == [n]
    ensures var b := Block(true, n); b != [] && b[|b| - 1]
    ensures s'.rawlen == 1 && s'.rawbuf[0] == (s.timer + 1) % WORD16
    decreases n
  {
    hide Tick, Runs, Recorded, Run;
    if n == 1 {
      assert Block(true, 1) == [true];
      RunOne(s, true);
      FirstMark(s, true);
      RunsOne(true);
      s' := Tick(s, true);
      OpenLength(s', [true]);
    } else {
      var s1 := FirstBlock(s, n - 1);
      var levels := Block(true, n - 1);
      assert Block(true, n) == levels + [true];
      RunConcat(s, levels, [true]);
      RunOne(s1, true);
      OpenSame(s1, levels, true);
      SameRun(levels, true);
      s' := Tick(s1, true);
      assert Runs(levels + [true]) == Runs(levels + [true])[..0] + [n];
    }
  }

  lemma OpenLength(s: Sampler, levels: seq<bool>)
    requires Valid(s) && Open(s, levels)
    ensures s.rawlen == |Runs(levels)|
  {
  }

  // ---- when a recording starts, and when it stops ----

  lemma {:induction false} SilentGap(s: Sampler, n: nat)
    requires Valid(s) && s.rcvstate.Idle?
    ensures Run(s, Block(false, n)) == s.(timer := (s.timer + n) % WORD16)
    decreases n
  {
    RunNothing(s);
    TimerInRange(s);
    hide Run, Tick, Valid;
    if n == 0 {
      assert Block(false, 0) == [];
      SmallMod(s.timer, WORD16);
    } else {
      SilentGap(s, n - 1);
      assert Block(false, n) == Block(false, n - 1) + [false];
      var before := Run(s, Block(false, n - 1));
      RunConcat(s, Block(false, n - 1), [false]);
      RunOne(before, false);
      IdleTick(before, false);
      NextTick(s.timer + n - 1);
    }
  }

  lemma TimerInRange(s: Sampler)
    requires Valid(s)
    ensures s.timer < WORD16 && forall t: nat :: t < WORD16 ==> Valid(s.(timer := t))
  {
  }

  lemma IdleTick(s: Sampler, mark: bool)
    requires Valid(s) && s.rcvstate.Idle?
    ensures var t := (s.timer + 1) % 0x1_0000;
            Tick(s, mark) == if !mark then s.(timer := t) else if t < 100 then s.(timer := 0)
                             else Sampler(InMark, 0, s.rawbuf[0 := t], 1)
  {
  }

  /** A mark starts a recording exactly if the 16-bit timer has counted 100 ticks since the last one; otherwise the gap is
      measured anew. */
  lemma GapDecides(s: Sampler, silence: nat)
    requires Valid(s) && s.rcvstate.Idle?
    ensures var gap, s' := (s.timer + silence + 1) % 0x1_0000, Run(s, Block(false, silence) + [true]);
            s' == if gap >= 100 then Sampler(InMark, 0, s.rawbuf[0 := gap], 1) else s.(timer := 0)
  {
    hide Run, Tick;
    SilentGap(s, silence);
    RunConcat(s, Block(false, silence), [true]);
    RunOne(Run(s, Block(false, silence)), true);
    IdleTick(Run(s, Block(false, silence)), true);
    NextTick(s.timer + silence);
  }

  lemma SpaceTick(s: Sampler)
    requires Valid(s) && (s.rcvstate.InSpace? || s.rcvstate.Stop?) && s.rawlen < 100
    ensures var s' := Tick(s, false);
            && s'.rawlen == s.rawlen
            && (s.rcvstate.InSpace? && s.timer < 100 ==> s'.rcvstate.InSpace? && s'.timer == s.timer + 1)
            && (s.rcvstate.Stop? || s.timer == 100 ==> s'.rcvstate.Stop?)
  {
  }

  /** A space ends the recording exactly if it lasts more than 100 further ticks. */
  lemma {:induction false} SpaceDecides(s: Sampler, n: nat)
    requires Valid(s) && s.rcvstate.InSpace? && s.timer == 0 && s.rawlen < 100
    ensures var s' := Run(s, Block(false, n));
            && s'.rawlen == s.rawlen && (s'.rcvstate.Stop? <==> n > 100)
            && (n <= 100 ==> s'.rcvstate.InSpace? && s'.timer == n)
    decreases n
  {
    RunNothing(s);
    hide Run, Tick;
    if n == 0 {
      assert Block(false, 0) == [];
    } else {
      SpaceDecides(s, n - 1);
      assert Block(false, n) == Block(false, n - 1) + [false];
      RunConcat(s, Block(false, n - 1), [false]);
      RunOne(Run(s, Block(false, n - 1)), false);
      SpaceTick(Run(s, Block(false, n - 1)));
    }
  }

  /** A full buffer of 100 entries ends it too, at the next tick. */
  lemma FullDecides(s: Sampler, mark: bool)
    requires Valid(s) && !s.rcvstate.Idle?
    ensures s.rawlen == 100 ==> Tick(s, mark).rcvstate.Stop? && Tick(s, mark).rawbuf == s.rawbuf && Tick(s, mark).rawlen == 100
    ensures s.rcvstate.InMark? && s.rawlen < 100 ==>
              Tick(s, mark) == (if mark then s.(timer := (s.timer + 1) % 0x1_0000)
                                else Sampler(InSpace, 0, s.rawbuf[s.rawlen := (s.timer + 1) % 0x1_0000], s.rawlen + 1))
    ensures s.rcvstate.InSpace? && s.rawlen < 100 && mark ==>
              Tick(s, mark) == Sampler(InMark, 0, s.rawbuf[s.rawlen := (s.timer + 1) % 0x1_0000], s.rawlen + 1)
  {
  }

  // ---- the interrupt routine ----

  class IrParams {
    var rcvstate: ReceiverState
    var timer: nat
    const rawbuf: array<nat>
    var rawlen: nat

    constructor ()
      ensures rawbuf.Length == RAWBUF == 100 && fresh(rawbuf)
      ensures rcvstate == Idle && rawlen == 0 && timer == 0
    {
      rawbuf := new nat[RAWBUF](_ => 0);
      rcvstate, timer, rawlen := Idle, 0, 0;
    }

    function State(): Sampler
      reads this, rawbuf
    {
      Sampler(rcvstate, timer, rawbuf[..], rawlen)
    }

    /** One tick of the 50 microsecond timer; `mark` is what the detector shows. */
    method TimerInterrupt(mark: bool)
      requires Valid(State())
      modifies this, rawbuf
      ensures State() == Tick(old(State()), mark)
    {
      timer := (timer + 1) % WORD16;
      if rawlen >= RAWBUF {
        rcvstate := Stop;
      }
      match rcvstate
      case Idle =>
        if mark {
          if timer < GAP_TICKS {
            timer := 0;    // not big enough to be a gap
          } else {
            rawlen := 0;
            RecordTimer(InMark);
          }
        }
      case InMark =>
        if !mark {
          RecordTimer(InSpace);
        }
      case InSpace =>
        if mark {
          RecordTimer(InMark);
        } else if timer > GAP_TICKS {
          rcvstate := Stop;
        }
      case Stop =>
        if mark {
          timer := 0;
        }
    }

    method RecordTimer(next: ReceiverState)
      requires rawbuf.Length == RAWBUF && rawlen < RAWBUF
      modifies this, rawbuf
      ensures State() == Record(old(State()), next)
    {
      rawbuf[rawlen] := timer;
      rawlen := rawlen + 1;
      timer := 0;
      rcvstate := next;
    }

    method Resume()
      requires Valid(State())
      modifies this`rcvstate, this`rawlen
      ensures State() == old(State()).(rcvstate := Idle, rawlen := 0) && Valid(State())
    {
      rcvstate := Idle;
      rawlen := 0;
    }
  }
}
