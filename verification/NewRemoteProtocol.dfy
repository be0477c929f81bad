/** The 433 MHz protocol written out pulse by pulse: what is on the air, what a telegram is, and what the receiver's
    constants come to. */
module NewRemoteProtocol {
  import opened Arithmetic
  import opened Options
  import opened NewRemoteGrammar
  import opened NewRemoteDecoder
  import opened NewRemoteReceiver
  import opened NewRemoteTransmitter
  import opened NewRemoteLink
  import opened NewRemoteBurst
  import Sequences

  // ---- on the air ----

  /** A bit: high for one period, low for five if it is a 1, high for one, low for five if it is a 0. */
  function Symbol(t: nat, one: bool): seq<Pulse> {
    [Pulse(true, t), Pulse(false, if one then 5 * t % 0x1_0000 else t),
     Pulse(true, t), Pulse(false, if one then t else 5 * t % 0x1_0000)]
  }

  /** `n` symbols from pulse number `k` on, for the `n` lowest binary digits of `v`, the highest first. */
  predicate SymbolsAt(ps: seq<Pulse>, k: nat, n: nat, t: nat, v: nat) {
    k + 4 * n <= |ps| && forall i | 0 <= i < n :: ps[k + 4 * i..k + 4 * i + 4] == Symbol(t, Digit(v, n - 1 - i))
  }

  lemma LastSymbol(t: nat, n: nat, v: nat)
    requires n > 0
    ensures WordPulses(t, n, v) == WordPulses(t, n - 1, v / 2) + Symbol(t, Digit(v, 0)) && |Symbol(t, Digit(v, 0))| == 4
  {
    LowestDigit(v);
    hide Digit;
  }

  lemma {:induction false} WordLength(t: nat, n: nat, v: nat)
    ensures |WordPulses(t, n, v)| == 4 * n
  {
    if n > 0 {
      LastSymbol(t, n, v);
      hide *;
      WordLength(t, n - 1, v / 2);
    }
  }

  lemma {:induction false} WordAt(t: nat, n: nat, v: nat, i: nat)
    requires i < n
    ensures |WordPulses(t, n, v)| == 4 * n
    ensures WordPulses(t, n, v)[4 * i..4 * i + 4] == Symbol(t, Digit(v, n - 1 - i))
  {
    hide *;
    WordLength(t, n, v);
    WordLength(t, n - 1, v / 2);
    LastSymbol(t, n, v);
    var init, last := WordPulses(t, n - 1, v / 2), Symbol(t, Digit(v, 0));
    if i == n - 1 {
      Sequences.RestOfConcat(init, last);
    } else {
      WordAt(t, n - 1, v / 2, i);
      DigitAbove(v, n - 2 - i);
      assert (init + last)[4 * i..4 * i + 4] == init[4 * i..4 * i + 4];
    }
  }

  /** A row of symbols inside a telegram. */
  lemma WordInside(ps: seq<Pulse>, k: nat, n: nat, t: nat, v: nat)
    requires k + 4 * n <= |ps| && ps[k..k + 4 * n] == WordPulses(t, n, v)
    ensures SymbolsAt(ps, k, n, t, v)
  {
    hide WordPulses, Symbol, Digit;
    forall i | 0 <= i < n ensures ps[k + 4 * i..k + 4 * i + 4] == Symbol(t, Digit(v, n - 1 - i)) {
      WordAt(t, n, v, i);
      Sequences.PartOfPart(ps, k, k + 4 * n, 4 * i, 4 * i + 4);
    }
  }

  lemma PiecesAt(s: seq<Pulse>, a: seq<Pulse>, g: seq<Pulse>, o: seq<Pulse>, u: seq<Pulse>, e: seq<Pulse>)
    requires |s| == 2 && |a| == 104 && |g| == 4 && |o| == 4 && |e| == 2
    ensures var ps := s + a + g + o + u + e;
            && |ps| == 116 + |u| && ps[..2] == s && ps[2..106] == a && ps[106..110] == g && ps[110..114] == o
            && ps[114..114 + |u|] == u && ps[114 + |u|..] == e
  {
  }

  lemma EndsAre(t: nat)
    ensures StartPulses(t) == [Pulse(true, t), Pulse(false, (10 * t % 0x1_0000 + t / 2) % 0x1_0000)]
    ensures StopPulses(t) == [Pulse(true, t), Pulse(false, 40 * t % 0x1_0000)]
    ensures DimSymbolPulses(t) == [Pulse(true, t), Pulse(false, t), Pulse(true, t), Pulse(false, t)]
  {
  }

  lemma BitIsSymbol(t: nat, one: bool)
    ensures BitPulses(t, one) == Symbol(t, one) && |Symbol(t, one)| == 4
  {
  }

  /** A telegram on the air: the start pulse, the 26 lowest bits of the address, the group bit, the switch bit, the four
      lowest bits of the unit, and the stop pulse; all lengths in 16 bits. */
  lemma TelegramOnAir(t: nat, address: nat, group: bool, on: bool, unit: nat)
    ensures var ps := TelegramPulses(t, address, group, on, unit);
            && |ps| == 132
            && ps[..2] == [Pulse(true, t), Pulse(false, (10 * t % 0x1_0000 + t / 2) % 0x1_0000)]
            && SymbolsAt(ps, 2, 26, t, address)
            && ps[106..110] == Symbol(t, group) && ps[110..114] == Symbol(t, on)
            && SymbolsAt(ps, 114, 4, t, unit)
            && ps[130..] == [Pulse(true, t), Pulse(false, 40 * t % 0x1_0000)]
  {
    hide *;
    var s, a, g, o, u, e := StartPulses(t), WordPulses(t, 26, address), BitPulses(t, group), BitPulses(t, on),
                            WordPulses(t, 4, unit), StopPulses(t);
    TelegramIs(t, address, group, on, unit);
    BitIsSymbol(t, group);
    BitIsSymbol(t, on);
    EndsAre(t);
    WordLength(t, 26, address);
    WordLength(t, 4, unit);
    PiecesAt(s, a, g, o, u, e);
    WordInside(TelegramPulses(t, address, group, on, unit), 2, 26, t, address);
    WordInside(TelegramPulses(t, address, group, on, unit), 114, 4, t, unit);
  }

  /** What `sendDim` prints: the group bit is 0, the switch symbol is the one with no long pulse, and the four lowest bits
      of the dim level come after the unit. */
  lemma DimOnAir(t: nat, address: nat, unit: nat, dimLevel: nat)
    ensures var ps := DimPulses(t, address, unit, dimLevel);
            && |ps| == 148
            && ps[..2] == [Pulse(true, t), Pulse(false, (10 * t % 0x1_0000 + t / 2) % 0x1_0000)]
            && SymbolsAt(ps, 2, 26, t, address)
            && ps[106..110] == Symbol(t, false)
            && ps[110..114] == [Pulse(true, t), Pulse(false, t), Pulse(true, t), Pulse(false, t)]
            && SymbolsAt(ps, 114, 4, t, unit) && SymbolsAt(ps, 130, 4, t, dimLevel)
            && ps[146..] == [Pulse(true, t), Pulse(false, 40 * t % 0x1_0000)]
  {
    hide *;
    var s, a, g, o, u, l, e := StartPulses(t), WordPulses(t, 26, address), BitPulses(t, false), DimSymbolPulses(t),
                               WordPulses(t, 4, unit), WordPulses(t, 4, dimLevel), StopPulses(t);
    SevenParts(t, address, unit, dimLevel);
    BitIsSymbol(t, false);
    EndsAre(t);
    WordLength(t, 26, address);
    WordLength(t, 4, unit);
    WordLength(t, 4, dimLevel);
    PiecesAt(s, a, g, o, u + l, e);
    var ps := DimPulses(t, address, unit, dimLevel);
    HalvesAt(ps, u, l);
    WordInside(ps, 2, 26, t, address);
    WordInside(ps, 114, 4, t, unit);
    WordInside(ps, 130, 4, t, dimLevel);
  }

  lemma HalvesAt(ps: seq<Pulse>, u: seq<Pulse>, l: seq<Pulse>)
    requires |u| == 16 && |l| == 16 && |ps| == 148 && ps[114..146] == u + l
    ensures ps[114..130] == u && ps[130..146] == l
  {
    assert ps[114..130] == ps[114..146][..16] && ps[130..146] == ps[114..146][16..];
  }

  /** Telegrams follow each other without a pause. */
  lemma {:induction false} RepeatedAt(ps: seq<Pulse>, n: nat, k: nat, i: nat)
    requires k < n && i < |ps|
    ensures |Repeat(ps, n)| == n * |ps| && k * |ps| + i < n * |ps|
    ensures Repeat(ps, n)[k * |ps| + i] == ps[i]
  {
    var l := |ps|;
    RepeatedLength(ps, n);
    RepeatedLength(ps, n - 1);
    Difference(n, 1, l);
    if k > 0 {
      RepeatedAt(ps, n - 1, k - 1, i);
      Difference(k, 1, l);
      assert k * l + i == l + ((k - 1) * l + i);
    }
  }

  lemma {:induction false} RepeatedLength(ps: seq<Pulse>, n: nat)
    ensures |Repeat(ps, n)| == n * |ps|
  {
    if n > 0 {
      RepeatedLength(ps, n - 1);
      Difference(n, 1, |ps|);
    }
  }

  // ---- what a telegram is ----

  /** Four pulses from number `k` on that are read as a bit by a receiver that measured the period `p`: pulses of up to
      three periods are short, up to eight long. */
  predicate BitAt(p: nat, ds: seq<nat>, k: nat, one: bool)
    requires k + 4 <= |ds|
  {
    && ds[k] <= 3 * p && ds[k + 2] <= 3 * p
    && (if one then 3 * p < ds[k + 1] <= 8 * p && ds[k + 3] <= 3 * p else ds[k + 1] <= 3 * p && 3 * p < ds[k + 3] <= 8 * p)
  }

  lemma BitAtIs(p: nat, ds: seq<nat>, k: nat, one: bool)
    requires k + 4 <= |ds|
    ensures IsBit(p, ds[k..k + 4], one) <==> BitAt(p, ds, k, one)
  {
  }

  /** `n` bits from pulse number `k` on, which are the digits of `v`, the highest first. */
  predicate RowAt(p: nat, ds: seq<nat>, k: nat, n: nat, v: nat)
    requires k + 4 * n <= |ds|
  {
    forall i | 0 <= i < n :: BitAt(p, ds, k + 4 * i, Digit(v, n - 1 - i))
  }

  lemma RowSnoc(p: nat, ds: seq<nat>, k: nat, n: nat, v: nat)
    requires n > 0 && k + 4 * n <= |ds|
    ensures RowAt(p, ds, k, n, v) <==> RowAt(p, ds, k, n - 1, v / 2) && BitAt(p, ds, k + 4 * (n - 1), v % 2 == 1)
  {
    hide BitAt, Digit;
    LowestDigit(v);
    if RowAt(p, ds, k, n, v) {
      assert BitAt(p, ds, k + 4 * (n - 1), Digit(v, n - 1 - (n - 1)));
      forall i | 0 <= i < n - 1 ensures BitAt(p, ds, k + 4 * i, Digit(v / 2, n - 2 - i)) {
        DigitAbove(v, n - 2 - i);
        assert BitAt(p, ds, k + 4 * i, Digit(v, n - 1 - i));
      }
    }
    if RowAt(p, ds, k, n - 1, v / 2) && BitAt(p, ds, k + 4 * (n - 1), v % 2 == 1) {
      forall i | 0 <= i < n ensures BitAt(p, ds, k + 4 * i, Digit(v, n - 1 - i)) {
        if i < n - 1 {
          DigitAbove(v, n - 2 - i);
          assert BitAt(p, ds, k + 4 * i, Digit(v / 2, n - 2 - i));
        }
      }
    }
  }

  /** A row of bits, digit by digit. */
  lemma {:induction false} WordIs(p: nat, ds: seq<nat>, k: nat, n: nat, v: nat)
    requires k + 4 * n <= |ds|
    ensures IsWord(p, ds[k..k + 4 * n], n, v) <==> v < Pow2(n) && RowAt(p, ds, k, n, v)
  {
    if n == 0 {
      OnePow2();
      assert ds[k..k] == [];
    } else {
      Pow2Step(n - 1);
      hide IsWord, Pow2, Digit, BitAt, IsBit, RowAt;
      assert ds[k..k + 4 * n][..4 * (n - 1)] == ds[k..k + 4 * (n - 1)];
      assert ds[k..k + 4 * n][4 * (n - 1)..] == ds[k + 4 * (n - 1)..k + 4 * n];
      WordSnoc(p, ds[k..k + 4 * n], n, v);
      WordIs(p, ds, k, n - 1, v / 2);
      BitAtIs(p, ds, k + 4 * (n - 1), v % 2 == 1);
      RowSnoc(p, ds, k, n, v);
    }
  }

  lemma WordSnoc(p: nat, q: seq<nat>, n: nat, v: nat)
    requires n > 0 && |q| == 4 * n
    ensures IsWord(p, q, n, v) <==> IsWord(p, q[..4 * (n - 1)], n - 1, v / 2) && IsBit(p, q[4 * (n - 1)..], v % 2 == 1)
  {
    var last := q[4 * (n - 1)..];
    assert q[..|q| - 4] == q[..4 * (n - 1)] && q[|q| - 4..] == last && q[|q| - 3] == last[1];
  }

  /** Up to the stop pulse a telegram with or without a dim level, and what `sendDim` prints, agree on these. */
  predicate CommonPart(p: nat, ds: seq<nat>, c: NewRemoteCode) {
    && (|ds| == 132 || |ds| == 148)
    && ds[0] <= 3 * p && 7 * p <= ds[1] <= 15 * p
    && c.address < 0x400_0000 && RowAt(p, ds, 2, 26, c.address)
    && BitAt(p, ds, 106, c.groupBit)
    && c.unit < 16 && RowAt(p, ds, 114, 4, c.unit)
    && ds[|ds| - 2] <= 3 * p
  }

  /** No pulse of the four is long. */
  predicate NoneLong(p: nat, ds: seq<nat>, k: nat)
    requires k + 4 <= |ds|
  {
    ds[k] <= 3 * p && ds[k + 1] <= 3 * p && ds[k + 2] <= 3 * p && ds[k + 3] <= 3 * p
  }

  lemma CommonIs(p: nat, ds: seq<nat>, c: NewRemoteCode)
    requires |ds| == 132 || |ds| == 148
    ensures CommonPart(p, ds, c) <==>
            && Short(p, ds[0]) && StartLow(p, ds[1]) && IsWord(p, ds[2..106], 26, c.address) && IsBit(p, ds[106..110], c.groupBit)
            && IsWord(p, ds[114..130], 4, c.unit) && Short(p, ds[|ds| - 2])
  {
    SmallPowers();
    hide IsWord, IsBit, RowAt, BitAt, Pow2;
    WordIs(p, ds, 2, 26, c.address);
    WordIs(p, ds, 114, 4, c.unit);
    BitAtIs(p, ds, 106, c.groupBit);
  }

  lemma SwitchIs(p: nat, ds: seq<nat>)
    requires |ds| == 132 || |ds| == 148
    ensures IsSwitch(p, ds[110..114], Off) <==> BitAt(p, ds, 110, false)
    ensures IsSwitch(p, ds[110..114], On) <==> BitAt(p, ds, 110, true)
    ensures IsSwitch(p, ds[110..114], Dim) <==> NoneLong(p, ds, 110)
    ensures !IsSwitch(p, ds[110..114], OnWithDim)
  {
    BitAtIs(p, ds, 110, false);
    BitAtIs(p, ds, 110, true);
    var q := ds[110..114];
    assert q[0] == ds[110] && q[1] == ds[111] && q[2] == ds[112] && q[3] == ds[113];
    hide BitAt, IsBit;
  }

  /** A telegram, pulse by pulse. The dim level comes with the symbol for "on" only, and the upper end of the stop pulse's
      window is computed in 16 bits. */
  lemma TelegramMeans(p: nat, ds: seq<nat>, c: NewRemoteCode)
    ensures Telegram(p, ds, c) <==>
            && CommonPart(p, ds, c)
            && 20 * p <= ds[|ds| - 1] <= 80 * p % 0x1_0000
            && (if |ds| == 148 then
                  && BitAt(p, ds, 110, true) && c.switchType == OnWithDim
                  && c.dimLevel < 16 && RowAt(p, ds, 130, 4, c.dimLevel)
                else
                  && c.dimLevel == 0
                  && match c.switchType
                     case Off => BitAt(p, ds, 110, false)
                     case On => BitAt(p, ds, 110, true)
                     case Dim => NoneLong(p, ds, 110)
                     case OnWithDim => false)
  {
    hide IsWord, IsBit, RowAt, BitAt, IsSwitch, NoneLong, CommonPart;
    if |ds| == 132 || |ds| == 148 {
      CommonIs(p, ds, c);
      SwitchIs(p, ds);
      if |ds| == 148 {
        DimLevelIs(p, ds, c.dimLevel);
      }
    } else {
      NotCommon(p, ds, c);
    }
  }

  lemma NotCommon(p: nat, ds: seq<nat>, c: NewRemoteCode)
    requires |ds| != 132 && |ds| != 148
    ensures !CommonPart(p, ds, c)
  {
  }

  lemma DimLevelIs(p: nat, ds: seq<nat>, v: nat)
    requires |ds| == 148
    ensures IsWord(p, ds[130..146], 4, v) <==> v < 16 && RowAt(p, ds, 130, 4, v)
  {
    SmallPowers();
    hide IsWord, RowAt, Pow2;
    WordIs(p, ds, 130, 4, v);
  }

  lemma DimBodyMeans(p: nat, ds: seq<nat>, c: NewRemoteCode)
    ensures DimBody(p, ds, c) <==>
            && CommonPart(p, ds, c) && |ds| == 148 && NoneLong(p, ds, 110) && c.switchType == Dim
            && c.dimLevel < 16 && RowAt(p, ds, 130, 4, c.dimLevel)
  {
    hide IsWord, IsBit, RowAt, IsSwitch, NoneLong, CommonPart;
    if |ds| == 148 {
      CommonIs(p, ds, c);
      SwitchIs(p, ds);
      DimLevelIs(p, ds, c.dimLevel);
    }
  }

  // ---- the constants of the receiver ----

  /** A waiting decoder synchronises on anything longer than 4800, 40 periods of 120, and takes a 40th of it for the period;
      pulses under three tenths of that are glitches. */
  lemma SynchronisesAbove(d: Decoder, m: nat, x: nat)
    requires d.state == -1
    ensures var (e, c) := Feed(d, m, x);
            && c == None
            && if x <= 4800 then e == d
               else && e.state == 0 && e.repeats == 0 && e.code.period == x / 40
                    && e.min1Period == x / 40 * 3 / 10 && e.max1Period == 3 * (x / 40)
                    && e.min5Period == 3 * (x / 40) && e.max5Period == 8 * (x / 40)
                    && e.previous == d.previous && e.code.(period := d.code.period) == d.code
  {
  }

  /** What an edge does, by cases. */
  lemma EdgeMeans(r: Receiver, m: nat, now: nat)
    ensures !r.enabled ==> Edge(r, m, now) == (r, None)
    ensures r.enabled && r.skip ==> Edge(r, m, now) == (r.(e1 := r.e2, e2 := now, skip := false), None)
    ensures r.enabled && !r.skip && r.decoder.state >= 0 && (now - r.e2) % 0x1_0000_0000 < r.decoder.min1Period ==>
              Edge(r, m, now) == (r.(e1 := r.e2, e2 := now, skip := true), None)
    ensures r.enabled && !r.skip && (r.decoder.state < 0 || (now - r.e2) % 0x1_0000_0000 >= r.decoder.min1Period) ==>
              var (d, c) := Feed(r.decoder, m, (r.e2 - r.e0) % 0x1_0000_0000 % 0x1_0000);
              Edge(r, m, now) == (r.(e0 := r.e2, e1 := r.e2, e2 := now, decoder := d), c)
  {
    hide Feed;
  }

  // ---- how often a burst is received ----

  lemma {:induction false} CopiesAre(c: NewRemoteCode, n: nat)
    ensures |Copies(c, n)| == n && forall i :: 0 <= i < n ==> Copies(c, n)[i] == c
  {
    if n > 0 {
      CopiesAre(c, n - 1);
    }
  }

  /** The rule: of max(1, minRepeats) + 1 telegrams one is spent on synchronising, and the last of the burst is not heard to
      its end. */
  lemma BurstRule(r: Receiver, m: nat, start: nat, t: nat, address: nat, group: bool, on: bool, unit: nat, n: nat)
    requires r.enabled && r.decoder.state == -1 && !r.skip && m < 256 && 1 <= t && 40 * t < 0x1_0000 && n > 0
    requires (r.e2 - r.e0) % 0x1_0000_0000 % 0x1_0000 <= 4800
    requires (start % 0x1_0000_0000 - r.e2) % 0x1_0000_0000 % 0x1_0000 <= 4800
    ensures var calls := EdgeRun(r, m, Stamps(LevelChanges(false, start, Repeat(TelegramPulses(t, address, group, on, unit), n)))).1;
            && |calls| == (if 121 <= t <= 819 then (n - 1) / ((if m == 0 then 1 else m) + 1) else 0)
            && forall i :: 0 <= i < |calls| ==>
                 calls[i] == NewRemoteCode(t, address % 0x400_0000, group, if on then On else Off, unit % 16, 0)
  {
    hide LevelChanges, TelegramPulses, EdgeRun, BurstCalls, Copies, Stamps, Repeat;
    BurstReceived(r, m, start, t, address, group, on, unit, n);
    CopiesAre(SentCode(t, address, group, on, unit), CallCount(t, m, n - 1));
  }
}
