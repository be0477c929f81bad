/** The interrupt handler of the 433 MHz receiver: a low-pass filter on edges in front of the decoder. */
module NewRemoteReceiver {
  import opened Arithmetic
  import opened Options
  import opened NewRemoteGrammar
  import opened NewRemoteDecoder

  /** All that survives between two edges; `e0`, `e1`, `e2` are the three edge time stamps. */
  datatype Receiver = Receiver(enabled: bool, e0: nat, e1: nat, e2: nat, skip: bool, decoder: Decoder)

  /** Unsigned 32-bit difference of two time stamps. */
  function Elapsed(from: nat, to: nat): nat {
    (to as int - from as int) % WORD32
  }

  function Callbacks(c: Option<NewRemoteCode>): seq<NewRemoteCode> {
    if c.Some? then [c.value] else []
  }

  /** What an edge at time stamp `now` does. A pulse is handed to the decoder one edge late, so that a pulse that is
      too short can be dropped together with the edge that ends it. */
  function Edge(r: Receiver, minRepeats: nat, now: nat): (Receiver, Option<NewRemoteCode>) {
    if !r.enabled then (r, None)
    else
      var r' := r.(e1 := r.e2, e2 := now);
      if r.skip then (r'.(skip := false), None)
      else if r.decoder.state >= 0 && Elapsed(r.e2, now) < r.decoder.min1Period then (r'.(skip := true), None)
      else
        var (d, c) := Feed(r.decoder, minRepeats, Elapsed(r.e0, r.e2) % WORD16);
        (r'.(e0 := r.e2, decoder := d), c)
  }

  function EdgeRun(r: Receiver, m: nat, times: seq<nat>): (Receiver, seq<NewRemoteCode>)
    decreases |times|
  {
    if times == [] then (r, [])
    else
      var (r1, c) := Edge(r, m, times[0]);
      var (r2, cs) := EdgeRun(r1, m, times[1..]);
      (r2, Callbacks(c) + cs)
  }

  /** Time stamps are microseconds since boot, modulo 2^32. */
  function Stamp(t: nat): nat {
    t % WORD32
  }

  function Stamps(ts: seq<nat>): seq<nat> {
    seq(|ts|, i requires 0 <= i < |ts| => Stamp(ts[i]))
  }

  lemma ElapsedIs(a: nat, b: nat)
    requires a <= b < a + WORD32
    ensures Elapsed(Stamp(a), Stamp(b)) == b - a
  {
  }

  // ---- glitch transparency ----

  /** A train of glitches between `from` and `to`: pulses shorter than `limit`, each given by its two edges. */
  predicate GlitchTrain(gs: seq<(nat, nat)>, from: nat, to: nat, limit: nat)
    decreases |gs|
  {
    gs == [] ||
    (from <= gs[0].0 <= gs[0].1 <= to && gs[0].1 - gs[0].0 < limit && GlitchTrain(gs[1..], gs[0].1, to, limit))
  }

  function GlitchEdges(gs: seq<(nat, nat)>): seq<nat>
    decreases |gs|
  {
    if gs == [] then [] else [gs[0].0, gs[0].1] + GlitchEdges(gs[1..])
  }

  /** A receiver that dropped the second edge of a glitch, at time `last`, and will skip the next one. */
  predicate InGlitch(r: Receiver, clean: Receiver, last: nat) {
    && r.enabled && r.skip && r.e2 == Stamp(last)
    && r.e0 == clean.e0 && r.decoder == clean.decoder
  }

  lemma {:induction false} TrainIsSkipped(r: Receiver, clean: Receiver, m: nat, gs: seq<(nat, nat)>, last: nat, to: nat)
    requires InGlitch(r, clean, last) && clean.decoder.state >= 0
    requires last <= to < last + WORD32 && GlitchTrain(gs, last, to, clean.decoder.min1Period)
    ensures exists last' :: last <= last' <= to && InGlitch(EdgeRun(r, m, Stamps(GlitchEdges(gs))).0, clean, last')
    ensures EdgeRun(r, m, Stamps(GlitchEdges(gs))).1 == []
    decreases |gs|
  {
    var ts := Stamps(GlitchEdges(gs));
    if gs == [] {
      assert InGlitch(EdgeRun(r, m, ts).0, clean, last);
    } else {
      var (s, t) := gs[0];
      assert ts == [Stamp(s), Stamp(t)] + Stamps(GlitchEdges(gs[1..]));
      assert ts[1..][0] == Stamp(t) && ts[1..][1..] == Stamps(GlitchEdges(gs[1..]));
      ElapsedIs(s, t);
      var r1 := Edge(r, m, Stamp(s)).0;
      var r2 := Edge(r1, m, Stamp(t)).0;
      EdgeRunTwo(r, m, ts);
      TrainIsSkipped(r2, clean, m, gs[1..], t, to);
      var last' :| t <= last' <= to && InGlitch(EdgeRun(r2, m, Stamps(GlitchEdges(gs[1..]))).0, clean, last');
      assert InGlitch(EdgeRun(r, m, ts).0, clean, last');
    }
  }

  lemma EdgeRunTwo(r: Receiver, m: nat, ts: seq<nat>)
    requires |ts| >= 2
    ensures var (r1, c1) := Edge(r, m, ts[0]);
            var (r2, c2) := Edge(r1, m, ts[1]);
            && EdgeRun(r, m, ts).0 == EdgeRun(r2, m, ts[2..]).0
            && EdgeRun(r, m, ts).1 == Callbacks(c1) + Callbacks(c2) + EdgeRun(r2, m, ts[2..]).1
  {
    hide Edge;
    var (r1, c1) := Edge(r, m, ts[0]);
    var (r2, c2) := Edge(r1, m, ts[1]);
    assert ts[1..][1..] == ts[2..];
    assert EdgeRun(r1, m, ts[1..]).1 == Callbacks(c2) + EdgeRun(r2, m, ts[2..]).1;
  }

  lemma {:induction false} EdgeRunConcat(r: Receiver, m: nat, ts: seq<nat>, us: seq<nat>)
    ensures EdgeRun(r, m, ts + us).0 == EdgeRun(EdgeRun(r, m, ts).0, m, us).0
    ensures EdgeRun(r, m, ts + us).1 == EdgeRun(r, m, ts).1 + EdgeRun(EdgeRun(r, m, ts).0, m, us).1
    decreases |ts|
  {
    hide Edge;
    if ts == [] {
      assert ts + us == us;
    } else {
      assert (ts + us)[0] == ts[0] && (ts + us)[1..] == ts[1..] + us;
      EdgeRunConcat(Edge(r, m, ts[0]).0, m, ts[1..], us);
    }
  }

  /** While decoding, glitches inside a segment make no difference: a receiver whose last edge, at time `a`, started
      the segment, and that sees a train of glitches before the edges `b` (which ends the segment) and `c`, ends up
      as if there had been no glitches, provided the first comes no sooner than the shortest pulse after `a`. */
  lemma GlitchTransparent(r: Receiver, m: nat, gs: seq<(nat, nat)>, a: nat, b: nat, c: nat)
    requires r.enabled && !r.skip && r.e2 == Stamp(a) && r.decoder.state >= 0 && gs != []
    requires a + r.decoder.min1Period <= gs[0].0 && GlitchTrain(gs, a, b, r.decoder.min1Period)
    requires b <= c < a + WORD32
    requires Feed(r.decoder, m, Elapsed(r.e0, r.e2) % WORD16).0.state >= 0
    ensures EdgeRun(r, m, Stamps(GlitchEdges(gs) + [b, c])) == EdgeRun(r, m, Stamps([b, c]))
  {
    hide Edge, Feed;
    var min1 := r.decoder.min1Period;
    var (s, t) := gs[0];
    TrainEnds(gs, a, b, min1);
    // without glitches, the edge at `b` feeds the pending pulse; with glitches, the edge at `s` does
    var clean, r1 := Edge(r, m, Stamp(b)).0, Edge(r, m, Stamp(s)).0;
    FeedingEdge(r, m, a, b);
    FeedingEdge(r, m, a, s);
    // and the edge at `t` is dropped
    var r2 := r1.(e1 := r1.e2, e2 := Stamp(t), skip := true);
    ShortPulse(r1, m, s, t);
    assert InGlitch(r2, clean, t);
    var rest := GlitchEdges(gs[1..]);
    TrainIsSkipped(r2, clean, m, gs[1..], t, b);
    var last :| t <= last <= b && InGlitch(EdgeRun(r2, m, Stamps(rest)).0, clean, last);
    var r3 := EdgeRun(r2, m, Stamps(rest)).0;
    SkippedEdgeJoins(r3, clean, m, b, c);
    GlitchedRun(r, m, gs, b, c, r1, r2, r3);
    CleanRun(r, m, b, c, clean);
  }

  lemma CleanRun(r: Receiver, m: nat, b: nat, c: nat, clean: Receiver)
    requires Edge(r, m, Stamp(b)) == (clean, None)
    ensures EdgeRun(r, m, Stamps([b, c])).0 == Edge(clean, m, Stamp(c)).0
    ensures EdgeRun(r, m, Stamps([b, c])).1 == Callbacks(Edge(clean, m, Stamp(c)).1)
  {
    hide Edge;
    var ts := [Stamp(b), Stamp(c)];
    assert Stamps([b, c]) == ts && ts[2..] == [];
    EdgeRunTwo(r, m, ts);
    assert EdgeRun(Edge(clean, m, Stamp(c)).0, m, []) == (Edge(clean, m, Stamp(c)).0, []);
  }

  lemma GlitchedRun(r: Receiver, m: nat, gs: seq<(nat, nat)>, b: nat, c: nat, r1: Receiver, r2: Receiver, r3: Receiver)
    requires gs != [] && Edge(r, m, Stamp(gs[0].0)) == (r1, None) && Edge(r1, m, Stamp(gs[0].1)) == (r2, None)
    requires EdgeRun(r2, m, Stamps(GlitchEdges(gs[1..]))) == (r3, [])
    ensures EdgeRun(r, m, Stamps(GlitchEdges(gs) + [b, c])).0 == EdgeRun(r3, m, [Stamp(b), Stamp(c)]).0
    ensures EdgeRun(r, m, Stamps(GlitchEdges(gs) + [b, c])).1 == EdgeRun(r3, m, [Stamp(b), Stamp(c)]).1
  {
    hide Edge;
    var rest := Stamps(GlitchEdges(gs[1..]));
    var all := Stamps(GlitchEdges(gs) + [b, c]);
    assert all == [Stamp(gs[0].0), Stamp(gs[0].1)] + (rest + [Stamp(b), Stamp(c)]);
    assert all[2..] == rest + [Stamp(b), Stamp(c)];
    EdgeRunTwo(r, m, all);
    EdgeRunConcat(r2, m, rest, [Stamp(b), Stamp(c)]);
  }

  /** An edge late enough after the one before it hands the pending pulse to the decoder. */
  lemma FeedingEdge(r: Receiver, m: nat, a: nat, t: nat)
    requires r.enabled && !r.skip && r.e2 == Stamp(a) && a <= t < a + WORD32
    requires r.decoder.state >= 0 ==> r.decoder.min1Period <= t - a
    ensures var (d, c) := Feed(r.decoder, m, Elapsed(r.e0, r.e2) % WORD16);
            Edge(r, m, Stamp(t)) == (r.(e0 := r.e2, e1 := r.e2, e2 := Stamp(t), decoder := d), c)
    ensures r.decoder.state >= 0 && Edge(r, m, Stamp(t)).0.decoder.state >= 0 ==>
              Edge(r, m, Stamp(t)).0.decoder.min1Period == r.decoder.min1Period && Edge(r, m, Stamp(t)).1.None?
  {
    hide Feed;
    ElapsedIs(a, t);
    if r.decoder.state >= 0 {
      KeepsTuning(r.decoder, m, Elapsed(r.e0, r.e2) % WORD16);
    }
  }

  lemma KeepsTuning(d: Decoder, m: nat, x: nat)
    requires d.state >= 0
    ensures Feed(d, m, x).0.min1Period == d.min1Period
    ensures Feed(d, m, x).1.Some? ==> Feed(d, m, x).0.state == -1
  {
  }

  lemma ShortPulse(r: Receiver, m: nat, s: nat, t: nat)
    requires r.enabled && !r.skip && r.e2 == Stamp(s) && s <= t < s + WORD32
    requires r.decoder.state >= 0 && t - s < r.decoder.min1Period
    ensures Edge(r, m, Stamp(t)) == (r.(e1 := r.e2, e2 := Stamp(t), skip := true), None)
  {
    ElapsedIs(s, t);
  }

  lemma {:induction false} TrainEnds(gs: seq<(nat, nat)>, from: nat, to: nat, limit: nat)
    requires GlitchTrain(gs, from, to, limit) && gs != []
    ensures from <= gs[0].0 <= gs[0].1 <= to
  {
  }

  /** The edge that ends the segment is skipped after a glitch, and from there on both receivers agree. */
  lemma SkippedEdgeJoins(r: Receiver, clean: Receiver, m: nat, b: nat, c: nat)
    requires clean.enabled && !clean.skip && clean.e2 == Stamp(b) && r.enabled && r.skip
    requires r.e0 == clean.e0 && r.decoder == clean.decoder
    ensures EdgeRun(r, m, [Stamp(b), Stamp(c)]).0 == Edge(clean, m, Stamp(c)).0
    ensures EdgeRun(r, m, [Stamp(b), Stamp(c)]).1 == Callbacks(Edge(clean, m, Stamp(c)).1)
  {
    hide Feed;
    EdgeRunTwo(r, m, [Stamp(b), Stamp(c)]);
    var r1 := r.(e1 := r.e2, e2 := Stamp(b), skip := false);
    assert Edge(r, m, Stamp(b)) == (r1, None);
    assert clean == r1.(e1 := clean.e1);
    MiddleStampIsScratch(r1, m, Stamp(c), clean.e1);
    assert [Stamp(b), Stamp(c)][2..] == [];
    assert EdgeRun(Edge(r1, m, Stamp(c)).0, m, []) == (Edge(r1, m, Stamp(c)).0, []);
  }

  /** The middle time stamp is overwritten before it is read. */
  lemma MiddleStampIsScratch(r: Receiver, m: nat, now: nat, e1: nat)
    requires r.enabled
    ensures Edge(r.(e1 := e1), m, now) == Edge(r, m, now)
  {
    hide Feed;
  }

  /** Transparency needs a decoder that goes on decoding: where the pending pulse loses synchronisation, a glitch in the
      segment after it can be taken for the end of a stop pulse. */
  lemma GlitchMatters(r: Receiver, m: nat, a: nat) returns (gs: seq<(nat, nat)>, b: nat, c: nat)
    requires r.enabled && !r.skip && r.e2 == Stamp(a) && r.decoder.state >= 0 && 1 < r.decoder.min1Period <= 5000
    requires Feed(r.decoder, m, Elapsed(r.e0, r.e2) % WORD16).0.state == -1
    ensures gs != [] && a + r.decoder.min1Period <= gs[0].0 && GlitchTrain(gs, a, b, r.decoder.min1Period)
    ensures b <= c < a + WORD32
    ensures EdgeRun(r, m, Stamps(GlitchEdges(gs) + [b, c])) != EdgeRun(r, m, Stamps([b, c]))
  {
    hide Edge, Feed, EdgeRun, Stamps;
    gs, b, c := [(a + 5000, a + 5001)], a + 7000, a + 9000;
    assert gs[1..] == [] && GlitchEdges(gs) == [a + 5000, a + 5001];
    StartsFalsely(r, m, a);
    StartsOnSegment(r, m, a);
  }

  /** With the glitch, the decoder synchronises on its beginning, and is lost again at the end of the segment. */
  lemma StartsFalsely(r: Receiver, m: nat, a: nat)
    requires r.enabled && !r.skip && r.e2 == Stamp(a) && r.decoder.state >= 0 && r.decoder.min1Period <= 5000
    requires Feed(r.decoder, m, Elapsed(r.e0, r.e2) % WORD16).0.state == -1
    ensures EdgeRun(r, m, Stamps([a + 5000, a + 5001] + [a + 7000, a + 9000])).0.decoder.state == -1
  {
    hide Edge, Feed, EdgeRun, Stamps, Stamp;
    var s, t, b, c := a + 5000, a + 5001, a + 7000, a + 9000;
    FourEdges(r, m, s, t, b, c);
    FeedingEdge(r, m, a, s);
    var r1 := Edge(r, m, Stamp(s)).0;
    FalseStart(r1.decoder, m);
    ElapsedIs(a, s);
    FeedingEdge(r1, m, s, t);
    var r2 := Edge(r1, m, Stamp(t)).0;
    ElapsedIs(s, t);
    FeedingEdge(r2, m, t, b);
    var r3 := Edge(r2, m, Stamp(b)).0;
    ElapsedIs(t, b);
    FeedingEdge(r3, m, b, c);
  }

  /** Without it, the decoder synchronises on the whole segment. */
  lemma StartsOnSegment(r: Receiver, m: nat, a: nat)
    requires r.enabled && !r.skip && r.e2 == Stamp(a) && r.decoder.state >= 0 && r.decoder.min1Period <= 5000
    requires Feed(r.decoder, m, Elapsed(r.e0, r.e2) % WORD16).0.state == -1
    ensures EdgeRun(r, m, Stamps([a + 7000, a + 9000])).0.decoder.state == 0
  {
    var b, c := a + 7000, a + 9000;
    assert Stamps([b, c])[2..] == [] && Stamps([b, c])[0] == Stamp(b) && Stamps([b, c])[1] == Stamp(c);
    EdgeRunTwo(r, m, Stamps([b, c]));
    hide Edge, Feed, Stamps, Stamp;
    FeedingEdge(r, m, a, b);
    var clean := Edge(r, m, Stamp(b)).0;
    FalseStart(clean.decoder, m);
    ElapsedIs(a, b);
    FeedingEdge(clean, m, b, c);
  }

  lemma FalseStart(d: Decoder, m: nat)
    requires d.state == -1
    ensures Feed(d, m, 7000).0.state == 0
    ensures var d1 := Feed(d, m, 5000).0;
            var d2 := Feed(d1, m, 1).0;
            d1.state == 0 && d1.min1Period == 37 && d2.state == 1 && d2.min1Period == 37 && Feed(d2, m, 1999).0.state == -1
  {
  }

  lemma FourEdges(r: Receiver, m: nat, s: nat, t: nat, b: nat, c: nat)
    ensures EdgeRun(r, m, Stamps([s, t] + [b, c])).0 ==
            Edge(Edge(Edge(Edge(r, m, Stamp(s)).0, m, Stamp(t)).0, m, Stamp(b)).0, m, Stamp(c)).0
  {
    hide Edge;
    var ts := Stamps([s, t] + [b, c]);
    assert ts == [Stamp(s), Stamp(t), Stamp(b), Stamp(c)];
    assert ts[2..] == [Stamp(b), Stamp(c)] && [Stamp(b), Stamp(c)][2..] == [];
    EdgeRunTwo(r, m, ts);
    EdgeRunTwo(Edge(Edge(r, m, Stamp(s)).0, m, Stamp(t)).0, m, ts[2..]);
  }

  // ---- the handler itself ----

  class NewRemoteReceiver {
    var enabled: bool
    var state: int                    // a 16-bit short
    var minRepeats: nat
    var receivedBit: bv8
    var receivedCode: NewRemoteCode
    var previousCode: NewRemoteCode
    var repeats: nat
    const edgeTimeStamp: array<nat>
    var min1Period: nat
    var max1Period: nat
    var min5Period: nat
    var max5Period: nat
    var skip: bool
    var calls: seq<NewRemoteCode>     // the calls made to the callback

    constructor (minRepeats: nat)
      ensures edgeTimeStamp.Length == 3 && fresh(edgeTimeStamp)
      ensures this.minRepeats == minRepeats && calls == []
      ensures enabled && state == -1 && !skip
    {
      var none := NewRemoteCode(0, 0, false, Off, 0, 0);
      this.minRepeats := minRepeats;
      receivedBit, receivedCode, previousCode, repeats := 0, none, none, 0;
      edgeTimeStamp := new nat[3](_ => 0);
      min1Period, max1Period, min5Period, max5Period := 0, 0, 0, 0;
      skip, calls, enabled, state := false, [], true, -1;
    }

    function DecoderState(): Decoder
      reads this
    {
      Decoder(state, receivedBit, receivedCode, previousCode, repeats, min1Period, max1Period, min5Period, max5Period)
    }

    function State(): Receiver
      requires edgeTimeStamp.Length == 3
      reads this, edgeTimeStamp
    {
      Receiver(enabled, edgeTimeStamp[0], edgeTimeStamp[1], edgeTimeStamp[2], skip, DecoderState())
    }

    method Enable()
      modifies this`state, this`enabled
      ensures enabled && state == -1 && DecoderState() == Lost(old(DecoderState()))
    {
      state := -1;
      enabled := true;
    }

    method Disable()
      modifies this`enabled
      ensures !enabled && DecoderState() == old(DecoderState())
    {
      enabled := false;
    }

    /** Runs on every level change, `now` being the time stamp of the edge. */
    method InterruptHandler(now: nat)
      requires edgeTimeStamp.Length == 3
      modifies this, edgeTimeStamp
      ensures minRepeats == old(minRepeats)
      ensures State() == Edge(old(State()), minRepeats, now).0
      ensures calls == old(calls) + Callbacks(Edge(old(State()), minRepeats, now).1)
    {
      hide Feed;
      if !enabled {
        return;
      }
      edgeTimeStamp[1] := edgeTimeStamp[2];
      edgeTimeStamp[2] := now;
      if skip {
        skip := false;
        return;
      }
      if state >= 0 && Elapsed(edgeTimeStamp[1], edgeTimeStamp[2]) < min1Period {
        // too short: skip this edge, and the next too
        skip := true;
        return;
      }
      var duration := Elapsed(edgeTimeStamp[0], edgeTimeStamp[1]) % WORD16;
      edgeTimeStamp[0] := edgeTimeStamp[1];
      HandlePulse(duration);
    }

    method HandlePulse(duration: nat)
      modifies this`state, this`receivedBit, this`receivedCode, this`previousCode, this`repeats, this`calls,
               this`min1Period, this`max1Period, this`min5Period, this`max5Period
      ensures DecoderState() == Feed(old(DecoderState()), minRepeats, duration).0
      ensures calls == old(calls) + Callbacks(Feed(old(DecoderState()), minRepeats, duration).1)
    {
      hide Accept, SymbolEnd, FeedStop, FeedShortOrLong;
      if state == -1 {
        // wait for the long low part of a stop pulse: 40 periods
        if duration > 4800 {
          repeats := 0;
          receivedCode := receivedCode.(period := duration / 40);
          min1Period := receivedCode.period * 3 / 10;
          max1Period := receivedCode.period * 3;
          min5Period := receivedCode.period * 3;
          max5Period := receivedCode.period * 8;
        } else {
          return;
        }
      } else if state == 0 {
        if duration > max1Period {
          state := -1;
          return;
        }
        receivedCode := receivedCode.(address := 0, unit := 0, dimLevel := 0);
      } else if state == 1 {
        if duration < 7 * receivedCode.period % WORD16 || duration > 15 * receivedCode.period % WORD16 {
          state := -1;
          return;
        }
      } else if state < 148 {
        HandleSymbolPulse(duration);
        return;
      }
      state := if state == 32767 then -32768 else state + 1;
    }

    /** A pulse after the start pulse: part of a symbol, or the stop pulse. */
    method HandleSymbolPulse(duration: nat)
      modifies this`state, this`receivedBit, this`receivedCode, this`previousCode, this`repeats, this`calls
      ensures var was := old(DecoderState());
              if duration <= max1Period || min5Period <= duration <= max5Period then
                && DecoderState() == FeedShortOrLong(was.(receivedBit := ShiftedBit(was.receivedBit, max1Period < duration)))
                && calls == old(calls)
              else
                var r := FeedStop(was.(receivedBit := was.receivedBit << 1), minRepeats, duration);
                DecoderState() == r.0 && calls == old(calls) + Callbacks(r.1)
    {
      hide FeedShortOrLong, FeedStop, ShiftedBit;
      if duration <= max1Period {
        ShiftPartIn(false);
        AdvanceSymbol();
      } else if min5Period <= duration <= max5Period {
        ShiftPartIn(true);
        AdvanceSymbol();
      } else {
        receivedBit := receivedBit << 1;
        HandleStop(duration);
      }
    }

    method ShiftPartIn(long: bool)
      modifies this`receivedBit
      ensures receivedBit == ShiftedBit(old(receivedBit), long)
    {
      receivedBit := receivedBit << 1;
      if long {
        receivedBit := receivedBit | 0x01;    // set the low bit
      } else {
        receivedBit := receivedBit & 0x0E;    // clear it
      }
    }

    /** Takes the symbol in, if this was its last part. */
    method AdvanceSymbol()
      modifies this`state, this`receivedCode
      ensures DecoderState() == FeedShortOrLong(old(DecoderState()))
    {
      hide SymbolEnd;
      if state > 0 && state % 4 == 1 {
        var code := SymbolEnd(state, receivedCode, receivedBit);
        if code.None? {
          state := -1;
          return;
        }
        receivedCode := code.value;
      }
      state := if state == 32767 then -32768 else state + 1;
    }

    method HandleStop(duration: nat)
      modifies this`state, this`receivedCode, this`previousCode, this`repeats, this`calls
      ensures DecoderState() == FeedStop(old(DecoderState()), minRepeats, duration).0
      ensures calls == old(calls) + Callbacks(FeedStop(old(DecoderState()), minRepeats, duration).1)
    {
      if 20 * receivedCode.period % WORD16 <= duration <= 80 * receivedCode.period % WORD16
         && receivedBit & 0x02 == 0 && (state == 147 || state == 131) {
        if state == 147 {
          if receivedCode.switchType == On {
            receivedCode := receivedCode.(switchType := OnWithDim);
          } else {
            state := -1;
            return;
          }
        }
        TelegramReceived();
      } else {
        state := -1;
      }
    }

    method TelegramReceived()
      modifies this`state, this`previousCode, this`repeats, this`calls
      ensures DecoderState() == Accept(old(DecoderState()), minRepeats, receivedCode).0
      ensures calls == old(calls) + Callbacks(Accept(old(DecoderState()), minRepeats, receivedCode).1)
    {
      if !SameFields(receivedCode, previousCode) {
        repeats := 0;
        previousCode := receivedCode;
      }
      repeats := (repeats + 1) % 256;
      if repeats >= minRepeats {
        calls := calls + [receivedCode];
        state := -1;
        return;
      }
      state := 0;    // no need to wait for another synchronisation
    }
  }
}
