/** From the transmitter's pin to the receiver's callback: what a burst of telegrams makes the receiver do. */
module NewRemoteLink {
  import opened Arithmetic
  import opened Options
  import opened NewRemoteGrammar
  import opened NewRemoteDecoder
  import opened NewRemoteReceiver
  import opened NewRemoteTransmitter
  import Sequences

  // ---- from pulses to edges ----

  function Us(ps: seq<Pulse>): seq<nat> {
    seq(|ps|, i requires 0 <= i < |ps| => ps[i].us)
  }

  /** The times at which the level of the line changes, if it was `level` before and the first pulse starts at `t`. */
  function LevelChanges(level: bool, t: nat, ps: seq<Pulse>): seq<nat>
    decreases |ps|
  {
    if ps == [] then []
    else (if ps[0].high != level then [t] else []) + LevelChanges(ps[0].high, t + ps[0].us, ps[1..])
  }

  /** The levels take turns, starting with `high`. */
  predicate Alternating(high: bool, ps: seq<Pulse>)
    decreases |ps|
  {
    ps == [] || (ps[0].high == high && Alternating(!high, ps[1..]))
  }

  /** The ends of pulses of lengths `xs`, the first of which starts at `t`. */
  function Ends(t: nat, xs: seq<nat>): seq<nat>
    decreases |xs|
  {
    if xs == [] then [] else [t + xs[0]] + Ends(t + xs[0], xs[1..])
  }

  lemma {:induction false} ChangesAreEnds(high: bool, t: nat, ps: seq<Pulse>)
    requires ps != [] && Alternating(high, ps)
    ensures LevelChanges(!high, t, ps) == [t] + Ends(t, Us(ps)[..|ps| - 1])
    decreases |ps|
  {
    var rest, xs := ps[1..], Us(ps)[..|ps| - 1];
    if rest == [] {
      assert LevelChanges(high, t + ps[0].us, rest) == [];
    } else {
      ChangesAreEnds(!high, t + ps[0].us, rest);
      assert xs[1..] == Us(rest)[..|rest| - 1];
    }
  }

  // ---- from edges to the decoder ----

  /** No pulse of length `g` or more is too short for `d`. */
  predicate Tolerates(d: Decoder, g: nat) {
    d.state >= 0 ==> d.min1Period <= g
  }

  /** Synchronising on a pulse of length `x` keeps the tolerance of `g`. */
  predicate Harmless(x: nat, g: nat) {
    x < WORD16 && (x > 4800 ==> x / 40 * 3 / 10 <= g)
  }

  lemma FeedTolerates(d: Decoder, m: nat, x: nat, g: nat)
    requires Tolerates(d, g) && Harmless(x, g) && d.state >= -32768
    ensures Tolerates(Feed(d, m, x).0, g) && Feed(d, m, x).0.state >= -32768
  {
  }

  /** With no pulse too short, the edges hand every pulse but the last to the decoder, one edge late. The receiver's last
      accepted edge was at `a` and ended a pulse of length `x`, which is still pending; pulses of lengths `xs` follow. */
  lemma {:induction false} EdgesFeed(r: Receiver, m: nat, x: nat, a: nat, xs: seq<nat>, g: nat)
    requires r.enabled && !r.skip && r.e2 == Stamp(a) && Elapsed(r.e0, r.e2) % WORD16 == x
    requires Tolerates(r.decoder, g) && Tolerates(Feed(r.decoder, m, x).0, g) && r.decoder.state >= -32768
    requires forall y :: y in xs ==> g <= y && Harmless(y, g)
    ensures EdgeRun(r, m, Stamps(Ends(a, xs))).1 == Run(r.decoder, m, ([x] + xs)[..|xs|]).1
    ensures EdgeRun(r, m, Stamps(Ends(a, xs))).0.decoder == Run(r.decoder, m, ([x] + xs)[..|xs|]).0
    decreases |xs|
  {
    hide Feed, Edge, Stamp, Elapsed, Tolerates, Harmless;
    if xs != [] {
      var b, rest := a + xs[0], xs[1..];
      assert xs[0] in xs && forall y :: y in rest ==> y in xs;
      NextEdge(r, m, x, a, xs[0], g);
      EdgesFeed(Edge(r, m, Stamp(b)).0, m, xs[0], b, rest, g);
      assert Stamps(Ends(a, xs)) == [Stamp(b)] + Stamps(Ends(b, rest));
      var feeds := ([x] + xs)[..|xs|];
      assert feeds[0] == x && feeds[1..] == ([xs[0]] + rest)[..|rest|];
    }
  }

  lemma NextEdge(r: Receiver, m: nat, x: nat, a: nat, y: nat, g: nat)
    requires r.enabled && !r.skip && r.e2 == Stamp(a) && Elapsed(r.e0, r.e2) % WORD16 == x
    requires Tolerates(r.decoder, g) && Tolerates(Feed(r.decoder, m, x).0, g) && r.decoder.state >= -32768
    requires g <= y && Harmless(y, g)
    ensures var (d, c) := Feed(r.decoder, m, x);
            && Edge(r, m, Stamp(a + y)) == (r.(e0 := r.e2, e1 := r.e2, e2 := Stamp(a + y), decoder := d), c)
            && d.state >= -32768 && Tolerates(Feed(d, m, y).0, g)
    ensures Elapsed(Stamp(a), Stamp(a + y)) % WORD16 == y
  {
    assert y < WORD16;
    hide Feed, Edge, Stamp, Elapsed;
    ElapsedIs(a, a + y);
    SmallMod(y, WORD16);
    FeedingEdge(r, m, a, a + y);
    StateInRange(r.decoder, m, x);
    FeedTolerates(Feed(r.decoder, m, x).0, m, y, g);
  }

  lemma StateInRange(d: Decoder, m: nat, x: nat)
    requires d.state >= -32768
    ensures Feed(d, m, x).0.state >= -32768
  {
  }

  // ---- what is sent is a telegram ----

  /** The period may be so long that 40 of them still fit the 16-bit arithmetic of the sender. */
  predicate Sendable(t: nat) {
    1 <= t && 40 * t < WORD16
  }

  predicate LowLength(t: nat, x: nat) {
    x == t || x == 5 * t || x == 10 * t + t / 2
  }

  /** Pairs of a short high pulse and a low one of 1, 5 or 10.5 periods. */
  predicate Shaped(t: nat, ps: seq<Pulse>)
    decreases |ps|
  {
    ps == [] ||
    (|ps| >= 2 && ps[0] == High(t) && !ps[1].high && LowLength(t, ps[1].us) && Shaped(t, ps[2..]))
  }

  lemma {:induction false} ShapedConcat(t: nat, a: seq<Pulse>, b: seq<Pulse>)
    requires Shaped(t, a) && Shaped(t, b)
    ensures Shaped(t, a + b)
    decreases |a|
  {
    if a == [] {
      assert a + b == b;
    } else {
      assert (a + b)[2..] == a[2..] + b;
      ShapedConcat(t, a[2..], b);
    }
  }

  lemma PairShaped(t: nat, x: nat)
    requires LowLength(t, x)
    ensures Shaped(t, [High(t), Low(x)])
  {
    assert [High(t), Low(x)][2..] == [];
  }

  /** The products of the sender do not wrap. */
  lemma BitPulsesAre(t: nat, one: bool)
    requires Sendable(t)
    ensures BitPulses(t, one) == if one then [High(t), Low(5 * t), High(t), Low(t)] else [High(t), Low(t), High(t), Low(5 * t)]
  {
    SmallMod(5 * t, WORD16);
  }

  lemma BitShaped(t: nat, one: bool)
    requires Sendable(t)
    ensures Shaped(t, BitPulses(t, one)) && |BitPulses(t, one)| == 4
  {
    BitPulsesAre(t, one);
    hide BitPulses;
    var x, y := if one then 5 * t else t, if one then t else 5 * t;
    PairShaped(t, x);
    PairShaped(t, y);
    ShapedConcat(t, [High(t), Low(x)], [High(t), Low(y)]);
    assert BitPulses(t, one) == [High(t), Low(x)] + [High(t), Low(y)];
  }

  lemma DimShaped(t: nat)
    requires Sendable(t)
    ensures Shaped(t, DimSymbolPulses(t)) && |DimSymbolPulses(t)| == 4
  {
    PairShaped(t, t);
    ShapedConcat(t, [High(t), Low(t)], [High(t), Low(t)]);
    assert DimSymbolPulses(t) == [High(t), Low(t)] + [High(t), Low(t)];
  }

  lemma {:induction false} WordShaped(t: nat, n: nat, v: nat)
    requires Sendable(t)
    ensures Shaped(t, WordPulses(t, n, v)) && |WordPulses(t, n, v)| == 4 * n
  {
    if n > 0 {
      WordShaped(t, n - 1, v / 2);
      BitShaped(t, v % 2 == 1);
      ShapedConcat(t, WordPulses(t, n - 1, v / 2), BitPulses(t, v % 2 == 1));
    }
  }

  /** A receiver tuned to the period `p` can read what is sent with period `t`, as far as the stop pulse. */
  predicate Reads(p: nat, t: nat) {
    Short(p, t) && Long(p, 5 * t) && StartLow(p, 10 * t + t / 2)
  }

  lemma ReadsItself(t: nat)
    requires t >= 1
    ensures Reads(t, t)
  {
  }

  /** It depends on the start pulse alone, which is the most exacting of the three. */
  lemma StartDecides(p: nat, t: nat)
    requires 120 <= p && Sendable(t)
    ensures Reads(p, t) <==> StartLow(p, 10 * t + t / 2)
    ensures Reads(p, t) ==> p * 3 / 10 <= t && !Part(p, 40 * t)
  {
    if StartLow(p, 10 * t + t / 2) {
      assert 2 * p <= 3 * t && 5 * t <= 8 * p;
    }
  }

  lemma BitSpells(p: nat, t: nat, one: bool)
    requires Sendable(t) && Reads(p, t)
    ensures IsBit(p, Us(BitPulses(t, one)), one)
  {
    BitPulsesAre(t, one);
    hide BitPulses, StartLow;
  }

  /** The low `n` bits of `v`. */
  function LowBits(v: nat, n: nat): nat {
    if n == 0 then 0 else 2 * LowBits(v / 2, n - 1) + Bit(v % 2 == 1)
  }

  lemma {:induction false} LowBitsIsRemainder(v: nat, n: nat, q: nat)
    requires q * Pow2(n) <= v < q * Pow2(n) + Pow2(n)
    ensures LowBits(v, n) == v - q * Pow2(n)
  {
    if n > 0 {
      var m := Pow2(n - 1);
      DoubleProduct(q, m);
      LowBitsIsRemainder(v / 2, n - 1, q);
    } else {
      assert q * 1 == q;
    }
  }

  lemma DoubleProduct(q: nat, m: nat)
    ensures q * (2 * m) == 2 * (q * m)
  {
  }

  /** The pulses sent for the low `n` bits of `v` spell just that number. */
  lemma {:induction false} WordSpells(p: nat, t: nat, n: nat, v: nat)
    requires Sendable(t) && Reads(p, t)
    ensures IsWord(p, Us(WordPulses(t, n, v)), n, LowBits(v, n))
  {
    if n > 0 {
      hide Reads, Sendable, IsBit, Spelled, BitPulses, Us;
      WordSpells(p, t, n - 1, v / 2);
      OneMoreBit(p, t, n - 1, v);
    } else {
      assert Us(WordPulses(t, n, v)) == [];
    }
  }

  lemma OneMoreBit(p: nat, t: nat, n: nat, v: nat)
    requires Sendable(t) && Reads(p, t) && IsWord(p, Us(WordPulses(t, n, v / 2)), n, LowBits(v / 2, n))
    ensures IsWord(p, Us(WordPulses(t, n + 1, v)), n + 1, LowBits(v, n + 1))
  {
    var init, bit := WordPulses(t, n, v / 2), BitPulses(t, v % 2 == 1);
    assert WordPulses(t, n + 1, v) == init + bit;
    assert LowBits(v, n + 1) == 2 * LowBits(v / 2, n) + Bit(v % 2 == 1);
    UsConcat(init, bit);
    hide WordPulses, LowBits, IsBit, Spelled, BitPulses, Reads, Us;
    BitSpells(p, t, v % 2 == 1);
    BitShaped(t, v % 2 == 1);
    SpelledSnoc(p, Us(init), LowBits(v / 2, n), Us(bit), v % 2 == 1);
  }

  lemma UsConcat(a: seq<Pulse>, b: seq<Pulse>)
    ensures Us(a + b) == Us(a) + Us(b) && |Us(a)| == |a| && |Us(b)| == |b|
  {
  }

  /** What the receiver is to report, if its measure of the period is `p`. */
  function SentCode(p: nat, address: nat, group: bool, on: bool, unit: nat): NewRemoteCode {
    NewRemoteCode(p, address % 0x400_0000, group, if on then On else Off, unit % 16, 0)
  }

  function DimCode(p: nat, address: nat, unit: nat, dimLevel: nat): NewRemoteCode {
    NewRemoteCode(p, address % 0x400_0000, false, Dim, unit % 16, dimLevel % 16)
  }

  lemma LowBitsValues(address: nat, unit: nat)
    ensures LowBits(address, 26) == address % 0x400_0000 && LowBits(unit, 4) == unit % 16
  {
    SmallPowers();
    LowBitsIsRemainder(address, 26, address / 0x400_0000);
    LowBitsIsRemainder(unit, 4, unit / 16);
  }

  /** A telegram as it goes out: pairs of pulses, of which the first is the start pulse and the last the stop pulse. */
  predicate Burstable(t: nat, ps: seq<Pulse>) {
    && |ps| >= 4 && ps[..2] == [High(t), Low(10 * t + t / 2)]
    && Shaped(t, ps[2..|ps| - 2]) && ps[|ps| - 2..] == [High(t), Low(40 * t)]
  }

  lemma StartAndStop(t: nat)
    requires Sendable(t)
    ensures StartPulses(t) == [High(t), Low(10 * t + t / 2)] && StopPulses(t) == [High(t), Low(40 * t)]
  {
    SmallMod(10 * t, WORD16);
    SmallMod(10 * t + t / 2, WORD16);
    SmallMod(40 * t, WORD16);
  }

  lemma SixParts(s: seq<Pulse>, a: seq<Pulse>, g: seq<Pulse>, o: seq<Pulse>, u: seq<Pulse>, e: seq<Pulse>)
    requires |s| == 2 && |a| == 104 && |g| == 4 && |o| == 4 && |e| == 2
    ensures var ps := s + a + g + o + u + e;
            var ds, n := Us(ps), |ps|;
            && n == 116 + |u| && |ds| == n
            && ps[..2] == s && ps[2..n - 2] == a + g + o + u && ps[n - 2..] == e
            && ds[0] == s[0].us && ds[1] == s[1].us && ds[n - 2] == e[0].us && ds[n - 1] == e[1].us
            && ds[2..106] == Us(a) && ds[106..110] == Us(g) && ds[110..114] == Us(o) && ds[114..n - 2] == Us(u)
  {
  }

  /** Everything that is sent is a telegram that encodes what was to be sent, as far as its stop pulse, to every receiver
      tuned so that it can read it. */
  lemma SentBody(p: nat, t: nat, address: nat, group: bool, on: bool, unit: nat)
    requires Sendable(t) && Reads(p, t)
    ensures Body(p, Us(TelegramPulses(t, address, group, on, unit)), SentCode(p, address, group, on, unit))
  {
    hide *;
    var s, a, g, o, u, e := StartPulses(t), WordPulses(t, 26, address), BitPulses(t, group), BitPulses(t, on),
                            WordPulses(t, 4, unit), StopPulses(t);
    StartAndStop(t);
    WordShaped(t, 26, address);
    WordShaped(t, 4, unit);
    BitShaped(t, group);
    BitShaped(t, on);
    TelegramIs(t, address, group, on, unit);
    SixParts(s, a, g, o, u, e);
    LowBitsValues(address, unit);
    WordSpells(p, t, 26, address);
    WordSpells(p, t, 4, unit);
    BitSpells(p, t, group);
    BitSpells(p, t, on);
    ReadsStart(p, t);
    CodeFields(p, address, group, on, unit);
    IsBody(p, Us(TelegramPulses(t, address, group, on, unit)), SentCode(p, address, group, on, unit), on);
  }

  lemma TelegramIs(t: nat, address: nat, group: bool, on: bool, unit: nat)
    ensures TelegramPulses(t, address, group, on, unit) ==
            StartPulses(t) + WordPulses(t, 26, address) + BitPulses(t, group) + BitPulses(t, on) + WordPulses(t, 4, unit)
            + StopPulses(t)
  {
  }

  lemma ReadsStart(p: nat, t: nat)
    requires Reads(p, t)
    ensures Short(p, t) && StartLow(p, 10 * t + t / 2) && High(t).us == t && Low(10 * t + t / 2).us == 10 * t + t / 2
  {
  }

  lemma CodeFields(p: nat, address: nat, group: bool, on: bool, unit: nat)
    ensures var c := SentCode(p, address, group, on, unit);
            && c.address == address % 0x400_0000 && c.groupBit == group && c.switchType == (if on then On else Off)
            && c.unit == unit % 16 && c.dimLevel == 0
  {
  }

  lemma IsBody(p: nat, ds: seq<nat>, c: NewRemoteCode, on: bool)
    requires |ds| == 132 && Short(p, ds[0]) && StartLow(p, ds[1]) && Short(p, ds[130])
    requires IsWord(p, ds[2..106], 26, c.address) && IsBit(p, ds[106..110], c.groupBit) && IsBit(p, ds[110..114], on)
    requires IsWord(p, ds[114..130], 4, c.unit) && c.switchType == (if on then On else Off) && c.dimLevel == 0
    ensures Body(p, ds, c)
  {
    hide IsWord, IsBit;
  }

  lemma TelegramBurstable(t: nat, address: nat, group: bool, on: bool, unit: nat)
    requires Sendable(t)
    ensures Burstable(t, TelegramPulses(t, address, group, on, unit)) && |TelegramPulses(t, address, group, on, unit)| == 132
    ensures Us(TelegramPulses(t, address, group, on, unit))[131] == 40 * t
  {
    var s, a, g, o, u, e := StartPulses(t), WordPulses(t, 26, address), BitPulses(t, group), BitPulses(t, on),
                            WordPulses(t, 4, unit), StopPulses(t);
    hide StartPulses, StopPulses, WordPulses, BitPulses, Us, Shaped;
    StartAndStop(t);
    WordShaped(t, 26, address);
    WordShaped(t, 4, unit);
    BitShaped(t, group);
    BitShaped(t, on);
    SixParts(s, a, g, o, u, e);
    ShapedConcat(t, a, g);
    ShapedConcat(t, a + g, o);
    ShapedConcat(t, a + g + o, u);
  }

  /** The unit, and behind it the dim level. */
  lemma SevenParts(t: nat, address: nat, unit: nat, dimLevel: nat)
    ensures DimPulses(t, address, unit, dimLevel) ==
            StartPulses(t) + WordPulses(t, 26, address) + BitPulses(t, false) + DimSymbolPulses(t)
            + (WordPulses(t, 4, unit) + WordPulses(t, 4, dimLevel)) + StopPulses(t)
  {
    hide StartPulses, WordPulses, BitPulses, DimSymbolPulses, StopPulses;
    Sequences.Associate(StartPulses(t) + WordPulses(t, 26, address) + BitPulses(t, false) + DimSymbolPulses(t),
                        WordPulses(t, 4, unit), WordPulses(t, 4, dimLevel));
  }

  lemma TwoWords(ds: seq<nat>, u: seq<Pulse>, l: seq<Pulse>)
    requires |ds| == 148 && |u| == 16 && |l| == 16 && ds[114..146] == Us(u + l)
    ensures ds[114..130] == Us(u) && ds[130..146] == Us(l)
  {
    assert ds[114..130] == ds[114..146][..16] && ds[130..146] == ds[114..146][16..];
  }

  lemma DimSpells(p: nat, t: nat)
    requires Short(p, t)
    ensures IsDimSymbol(p, Us(DimSymbolPulses(t)))
  {
  }

  lemma SentDimBody(p: nat, t: nat, address: nat, unit: nat, dimLevel: nat)
    requires Sendable(t) && Reads(p, t)
    ensures DimBody(p, Us(DimPulses(t, address, unit, dimLevel)), DimCode(p, address, unit, dimLevel))
  {
    var s, a, g, o, u, l, e := StartPulses(t), WordPulses(t, 26, address), BitPulses(t, false), DimSymbolPulses(t),
                               WordPulses(t, 4, unit), WordPulses(t, 4, dimLevel), StopPulses(t);
    hide StartPulses, StopPulses, WordPulses, BitPulses, DimSymbolPulses, DimPulses, Spelled, IsBit, IsDimSymbol, Us, Shaped;
    StartAndStop(t);
    WordShaped(t, 26, address);
    WordShaped(t, 4, unit);
    WordShaped(t, 4, dimLevel);
    BitShaped(t, false);
    DimShaped(t);
    SevenParts(t, address, unit, dimLevel);
    SixParts(s, a, g, o, u + l, e);
    TwoWords(Us(DimPulses(t, address, unit, dimLevel)), u, l);
    LowBitsValues(address, unit);
    LowBitsValues(address, dimLevel);
    WordSpells(p, t, 26, address);
    WordSpells(p, t, 4, unit);
    WordSpells(p, t, 4, dimLevel);
    BitSpells(p, t, false);
    DimSpells(p, t);
  }

  lemma DimBurstable(t: nat, address: nat, unit: nat, dimLevel: nat)
    requires Sendable(t)
    ensures Burstable(t, DimPulses(t, address, unit, dimLevel)) && |DimPulses(t, address, unit, dimLevel)| == 148
    ensures Us(DimPulses(t, address, unit, dimLevel))[147] == 40 * t
  {
    var s, a, g, o, u, l, e := StartPulses(t), WordPulses(t, 26, address), BitPulses(t, false), DimSymbolPulses(t),
                               WordPulses(t, 4, unit), WordPulses(t, 4, dimLevel), StopPulses(t);
    hide StartPulses, StopPulses, WordPulses, BitPulses, DimSymbolPulses, DimPulses, Us, Shaped;
    StartAndStop(t);
    WordShaped(t, 26, address);
    WordShaped(t, 4, unit);
    WordShaped(t, 4, dimLevel);
    BitShaped(t, false);
    DimShaped(t);
    SevenParts(t, address, unit, dimLevel);
    SixParts(s, a, g, o, u + l, e);
    ShapedConcat(t, u, l);
    ShapedConcat(t, a, g);
    ShapedConcat(t, a + g, o);
    ShapedConcat(t, a + g + o, u + l);
  }

  /** Such a telegram, cut off in its last pulse, deafens a receiver that has synchronised. */
  lemma CutDimDeafens(d: Decoder, m: nat, t: nat, address: nat, unit: nat, dimLevel: nat, x: nat)
    requires Sendable(t) && Tracks(d, t, []) && Part(t, x)
    ensures var ds := Us(DimPulses(t, address, unit, dimLevel));
            |ds| == 148 && Run(d, m, ds[..147] + [x]).0.state == 148 && Run(d, m, ds[..147] + [x]).1 == []
  {
    ReadsItself(t);
    hide DimPulses, DimBody, Body, Tracks, Run, Us, Reads;
    SentDimBody(t, t, address, unit, dimLevel);
    var ds := Us(DimPulses(t, address, unit, dimLevel));
    assert Readable(t, ds, DimCode(t, address, unit, dimLevel));
    DimLength(t, ds, DimCode(t, address, unit, dimLevel));
    hide Readable;
    TelegramDeafens(d, m, t, ds, DimCode(t, address, unit, dimLevel), x);
  }

  lemma DimLength(p: nat, ds: seq<nat>, c: NewRemoteCode)
    requires DimBody(p, ds, c)
    ensures |ds| == 148
  {
  }
}
