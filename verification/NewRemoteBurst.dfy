/** End to end: what a burst of telegrams makes a receiver do, whatever it had heard before. */
module NewRemoteBurst {
  import opened Arithmetic
  import opened Options
  import opened NewRemoteGrammar
  import opened NewRemoteDecoder
  import opened NewRemoteReceiver
  import opened NewRemoteTransmitter
  import opened NewRemoteLink
  import Sequences

  // ---- a decoder that is not in a telegram ----

  /** Not in a telegram: waiting, or fooled by a low pulse so that the next high pulse will be found too long. */
  predicate Adrift(d: Decoder, t: nat) {
    d.state == -1 || (d.state == 0 && d.max1Period < t)
  }

  lemma AdriftPair(d: Decoder, m: nat, t: nat, x: nat)
    requires Sendable(t) && Adrift(d, t) && LowLength(t, x)
    ensures var (d1, c1) := Feed(d, m, t);
            var (d2, c2) := Feed(d1, m, x);
            c1.None? && c2.None? && d1.state == -1 && Adrift(d2, t)
  {
    LowIsShortOf40(t, x);
  }

  /** No low pulse but the stop pulse makes for a period that a high pulse could have. */
  lemma LowIsShortOf40(t: nat, x: nat)
    requires Sendable(t) && LowLength(t, x)
    ensures x / 40 * 3 < t
  {
    assert 2 * x <= 21 * t;
    Division40(x);
  }

  lemma Division40(x: nat)
    ensures 40 * (x / 40) <= x < 40 * (x / 40) + 40
  {
  }

  lemma FirstPair(d: Decoder, m: nat, x: nat, y: nat, us: seq<nat>)
    ensures var (d1, c1) := Feed(d, m, x);
            var (d2, c2) := Feed(d1, m, y);
            && Run(d, m, [x, y] + us).0 == Run(d2, m, us).0
            && Run(d, m, [x, y] + us).1 == Callbacks(c1) + Callbacks(c2) + Run(d2, m, us).1
  {
    hide Feed;
    var (d1, c1) := Feed(d, m, x);
    assert ([x, y] + us)[1..] == [y] + us && ([y] + us)[1..] == us;
    assert Run(d, m, [x, y] + us).1 == Callbacks(c1) + Run(d1, m, [y] + us).1;
  }

  /** A decoder that is adrift makes nothing of a telegram before its stop pulse. */
  lemma {:induction false} AdriftRun(d: Decoder, m: nat, t: nat, ps: seq<Pulse>)
    requires Sendable(t) && Adrift(d, t) && Shaped(t, ps)
    ensures Run(d, m, Us(ps)).1 == [] && Adrift(Run(d, m, Us(ps)).0, t)
    decreases |ps|
  {
    if ps == [] {
      assert Us(ps) == [];
    } else {
      var x := ps[1].us;
      assert Us(ps) == [t, x] + Us(ps[2..]);
      hide Feed, Run, Adrift, LowLength;
      AdriftPair(d, m, t, x);
      FirstPair(d, m, t, x, Us(ps[2..]));
      AdriftRun(Feed(Feed(d, m, t).0, m, x).0, m, t, ps[2..]);
    }
  }

  /** Synchronised on something that was no stop pulse, and about to find out at the start of the next telegram. */
  predicate Misled(d: Decoder, t: nat) {
    Tuned(d, d.code.period) && (d.state == 1 || (d.state == 0 && !StartLow(d.code.period, 10 * t + t / 2)))
  }

  predicate Unaware(d: Decoder, t: nat) {
    d.state == -1 || Misled(d, t)
  }

  lemma MisledPair(d: Decoder, m: nat, t: nat)
    requires Sendable(t) && Misled(d, t)
    ensures var (d1, c1) := Feed(d, m, t);
            var (d2, c2) := Feed(d1, m, 10 * t + t / 2);
            c1.None? && c2.None? && Adrift(d2, t)
  {
    var p, x := d.code.period, 10 * t + t / 2;
    hide Feed, Tuned, Adrift;
    var d1 := Feed(d, m, t).0;
    if d.state == 0 {
      AtZero(d, m, p, t);
      if d1.state == 1 {
        AtOne(d1, m, p, x);
      }
    } else {
      AtOne(d, m, p, t);
      if d1.state == 2 {
        StartThenLow(p, t);
        AtTwo(d1, m, p, x);
      }
    }
    if d1.state == -1 {
      StartIsLow(t);
      AfterWaiting(d1, m, t, x);
    } else {
      LostIsAdrift(Feed(d1, m, x).0, t);
    }
  }

  lemma AtZero(d: Decoder, m: nat, p: nat, x: nat)
    requires Tuned(d, p) && d.state == 0
    ensures var (e, c) := Feed(d, m, x);
            c.None? && if Short(p, x) then e.state == 1 && Tuned(e, p) else e.state == -1
  {
  }

  lemma AtOne(d: Decoder, m: nat, p: nat, x: nat)
    requires Tuned(d, p) && d.state == 1
    ensures var (e, c) := Feed(d, m, x);
            c.None? && if StartLow(p, x) then e.state == 2 && Tuned(e, p) else e.state == -1
  {
    SmallMod(7 * p, WORD16);
    SmallMod(15 * p, WORD16);
  }

  lemma AtTwo(d: Decoder, m: nat, p: nat, x: nat)
    requires Tuned(d, p) && d.state == 2 && !Part(p, x)
    ensures var (e, c) := Feed(d, m, x); c.None? && e.state == -1
  {
    FeedOther(d, m, p, x);
  }

  lemma StartThenLow(p: nat, t: nat)
    requires StartLow(p, t) && p > 0
    ensures !Part(p, 10 * t + t / 2)
  {
  }

  lemma StartIsLow(t: nat)
    ensures LowLength(t, 10 * t + t / 2)
  {
  }

  lemma AfterWaiting(d: Decoder, m: nat, t: nat, x: nat)
    requires Sendable(t) && d.state == -1 && LowLength(t, x)
    ensures var (e, c) := Feed(d, m, x); c.None? && Adrift(e, t)
  {
    LowIsShortOf40(t, x);
  }

  lemma LostIsAdrift(d: Decoder, t: nat)
    requires d.state == -1
    ensures Adrift(d, t)
  {
  }

  lemma UnawarePair(d: Decoder, m: nat, t: nat)
    requires Sendable(t) && Unaware(d, t)
    ensures var (d1, c1) := Feed(d, m, t);
            var (d2, c2) := Feed(d1, m, 10 * t + t / 2);
            c1.None? && c2.None? && Adrift(d2, t)
  {
    hide Feed;
    if d.state == -1 {
      AdriftPair(d, m, t, 10 * t + t / 2);
    } else {
      MisledPair(d, m, t);
    }
  }

  /** The lengths of a telegram, in its three pieces. */
  lemma BurstableLengths(t: nat, ps: seq<Pulse>)
    requires Burstable(t, ps)
    ensures |Us(ps)| == |ps| >= 4 && Us(ps)[|ps| - 1] == 40 * t
    ensures Us(ps)[..|ps| - 2] == [t, 10 * t + t / 2] + Us(ps[2..|ps| - 2])
    ensures Us(ps) == Us(ps)[..|ps| - 2] + [t, 40 * t]
    ensures Shaped(t, ps[2..|ps| - 2])
  {
    hide Shaped;
    assert ps == ps[..2] + ps[2..|ps| - 2] + ps[|ps| - 2..];
  }

  /** A telegram without its stop pulse. */
  lemma UnawareHead(d: Decoder, m: nat, t: nat, ps: seq<Pulse>)
    requires Sendable(t) && Unaware(d, t) && Burstable(t, ps)
    ensures |Us(ps)| == |ps| >= 4
    ensures Run(d, m, Us(ps)[..|ps| - 2]).1 == [] && Adrift(Run(d, m, Us(ps)[..|ps| - 2]).0, t)
  {
    hide *;
    BurstableLengths(t, ps);
    UnawarePair(d, m, t);
    var x := 10 * t + t / 2;
    FirstPair(d, m, t, x, Us(ps[2..|ps| - 2]));
    NoCallbacks();
    AdriftRun(Feed(Feed(d, m, t).0, m, x).0, m, t, ps[2..|ps| - 2]);
  }

  lemma NoCallbacks()
    ensures Callbacks(None) == []
  {
  }

  /** The stop pulse of a telegram synchronises a decoder that was adrift, unless it is too short for that. */
  lemma StopPair(d: Decoder, m: nat, t: nat)
    requires Sendable(t) && Adrift(d, t)
    ensures var (e, calls) := Run(d, m, [t, 40 * t]);
            calls == [] && if t <= 120 then e.state == -1 else Tracks(e, t, []) && e.repeats == 0
  {
    hide Feed, Run, Adrift, Tracks, LowLength;
    assert LowLength(t, t) by { LowestLow(t); }
    AdriftPair(d, m, t, t);
    StopSynchronises(Feed(d, m, t).0, m, t);
    assert [t, 40 * t] + [] == [t, 40 * t];
    FirstPair(d, m, t, 40 * t, []);
    NewRemoteDecoder.RunNothing(Feed(Feed(d, m, t).0, m, 40 * t).0, m);
  }

  lemma LowestLow(t: nat)
    ensures LowLength(t, t)
  {
  }

  lemma StopSynchronises(d: Decoder, m: nat, t: nat)
    requires Sendable(t) && d.state == -1
    ensures var (e, c) := Feed(d, m, 40 * t);
            c.None? && if t <= 120 then e == d else Tracks(e, t, []) && e.repeats == 0
  {
    Division40(40 * t);
  }

  lemma UnawareTelegram(d: Decoder, m: nat, t: nat, ps: seq<Pulse>)
    requires Sendable(t) && Unaware(d, t) && Burstable(t, ps)
    ensures var (e, calls) := Run(d, m, Us(ps));
            calls == [] && if t <= 120 then e.state == -1 else Tracks(e, t, []) && e.repeats == 0
  {
    hide *;
    BurstableLengths(t, ps);
    UnawareHead(d, m, t, ps);
    var head := Us(ps)[..|ps| - 2];
    StopPair(Run(d, m, head).0, m, t);
    RunConcat(d, m, head, [t, 40 * t]);
  }

  /** A synchronised decoder loses a telegram whose stop pulse lies outside the window. */
  lemma RejectedTelegram(d: Decoder, m: nat, p: nat, ds: seq<nat>, c: NewRemoteCode)
    requires Tracks(d, p, []) && Body(p, ds, c) && !Part(p, ds[|ds| - 1]) && !StopLow(p, ds[|ds| - 1])
    ensures Run(d, m, ds).0.state == -1 && Run(d, m, ds).1 == []
  {
    assert Readable(p, ds, c);
    var n := |ds| - 1;
    var e := Run(d, m, ds[..n]).0;
    hide Body, Feed, Run, Tracks, Readable;
    ReadsBeginning(d, m, p, ds, c, n);
    assert ds == ds[..n] + [ds[n]];
    FeedStep(e, m, p, ds[..n], ds[n]);
    RunSnoc(d, m, ds[..n], ds[n]);
  }

  // ---- telegrams counted one by one ----

  /** Tuned to the period `p`, at the beginning of a telegram, with `i` telegrams for `c` counted. */
  predicate Counting(d: Decoder, p: nat, c: NewRemoteCode, i: nat) {
    Tracks(d, p, []) && d.repeats == i && (i >= 1 ==> SameFields(c, d.previous))
  }

  /** One more telegram, sent with the period `t`, for a decoder tuned to `p`. */
  lemma CountedTelegram(d: Decoder, m: nat, p: nat, t: nat, ps: seq<Pulse>, c: NewRemoteCode, i: nat)
    requires m < 256 && i < Needed(m) && Counting(d, p, c, i)
    requires Burstable(t, ps) && Body(p, Us(ps), c) && c.period == p && !Part(p, 40 * t)
    ensures var (e, calls) := Run(d, m, Us(ps));
            if !StopLow(p, 40 * t) then e.state == -1 && calls == []
            else if i + 1 < Needed(m) then Counting(e, p, c, i + 1) && calls == []
            else e.state == -1 && calls == [c]
  {
    hide Burstable, Body, Tracks, Run, StopLow, Part, Us, Telegram;
    BurstableLengths(t, ps);
    if StopLow(p, 40 * t) {
      BodyAndStop(p, Us(ps), c);
      TelegramAccepted(d, m, p, Us(ps), c);
    } else {
      RejectedTelegram(d, m, p, Us(ps), c);
    }
  }

  lemma BodyAndStop(p: nat, ds: seq<nat>, c: NewRemoteCode)
    requires Body(p, ds, c) && StopLow(p, ds[|ds| - 1])
    ensures Telegram(p, ds, c)
  {
  }

  function Copies(c: NewRemoteCode, n: nat): seq<NewRemoteCode> {
    if n == 0 then [] else Copies(c, n - 1) + [c]
  }

  lemma {:induction false} CopiesFront(c: NewRemoteCode, n: nat)
    ensures Copies(c, n + 1) == [c] + Copies(c, n)
  {
    if n == 0 {
      assert [] + [c] == [c] + [];
    } else {
      CopiesFront(c, n - 1);
      Sequences.Associate([c], Copies(c, n - 1), [c]);
    }
  }

  lemma NoCopies(c: NewRemoteCode)
    ensures Copies(c, 0) == []
  {
  }

  // ---- bursts ----

  /** How long a period may be for the receiver to count telegrams after synchronising on one of them. */
  predicate Receivable(t: nat) {
    121 <= t <= 819
  }

  lemma StopWindow(t: nat)
    requires Sendable(t)
    ensures !Part(t, 40 * t)
    ensures t > 120 ==> (StopLow(t, 40 * t) <==> Receivable(t))
  {
    if t <= 819 {
      SmallMod(80 * t, WORD16);
    } else {
      assert 80 * t % WORD16 == 80 * t - WORD16;
    }
  }

  /** Of every Needed(m) + 1 telegrams that are read to the end, one is spent on synchronising. */
  function CallCount(t: nat, m: nat, n: nat): nat {
    if Receivable(t) then n / (Needed(m) + 1) else 0
  }

  lemma CallCountSteps(t: nat, m: nat, n: nat)
    ensures n <= Needed(m) ==> CallCount(t, m, n) == 0
    ensures Receivable(t) ==> CallCount(t, m, n + Needed(m) + 1) == CallCount(t, m, n) + 1
  {
    var k := Needed(m) + 1;
    if n < k {
      QuotientIs(n, k, 0, n);
    }
    QuotientIs(n + k, k, n / k + 1, n % k);
  }

  /** Where a burst may find a decoder, and leave it: not in a telegram, or at the beginning of one. */
  predicate Between(d: Decoder, p: nat, t: nat) {
    Unaware(d, t) || Tracks(d, p, []) || Tracks(d, t, [])
  }

  /** What makes a burst of `ps` readable to a decoder that has synchronised on it. */
  predicate Sent(t: nat, ps: seq<Pulse>, c: NewRemoteCode) {
    Sendable(t) && Burstable(t, ps) && Body(t, Us(ps), c) && c.period == t
  }

  /** `n` whole telegrams, to a decoder that is unaware of them. */
  lemma {:induction false} UnawareBurst(d: Decoder, m: nat, t: nat, ps: seq<Pulse>, c: NewRemoteCode, n: nat)
    requires m < 256 && Sent(t, ps, c) && Unaware(d, t)
    ensures Between(Run(d, m, Us(Repeat(ps, n))).0, t, t)
    ensures Run(d, m, Us(Repeat(ps, n))).1 == Copies(c, CallCount(t, m, n))
    decreases n, 0
  {
    hide *;
    if n == 0 {
      NothingSent(d, m, ps);
      CallCountSteps(t, m, 0);
      NoCopies(c);
      UnawareIsBetween(d, t, t);
    } else {
      SentParts(t, ps, c);
      RunFront(d, m, ps, n - 1);
      UnawareTelegram(d, m, t, ps);
      var e := Run(d, m, Us(ps)).0;
      if t <= 120 {
        WaitingIsUnaware(e, t);
        UnawareBurst(e, m, t, ps, c, n - 1);
        NotReceivable(t, m, n);
      } else {
        CountingNone(e, t, c);
        OneNeeded(m);
        SynchronisedBurst(e, m, t, ps, c, 0, n - 1);
      }
    }
  }

  /** The same to a decoder that has synchronised on such a telegram, and counted `i` since. */
  lemma {:induction false} SynchronisedBurst(d: Decoder, m: nat, t: nat, ps: seq<Pulse>, c: NewRemoteCode, i: nat, n: nat)
    requires m < 256 && Sent(t, ps, c) && i < Needed(m) && Counting(d, t, c, i) && t > 120
    ensures Between(Run(d, m, Us(Repeat(ps, n))).0, t, t)
    ensures Run(d, m, Us(Repeat(ps, n))).1 == Copies(c, CallCount(t, m, n + i + 1))
    decreases n, 1
  {
    hide *;
    if n == 0 {
      NothingSent(d, m, ps);
      CallCountSteps(t, m, i + 1);
      NoCopies(c);
      CountingIsBetween(d, t, t, c, i);
    } else {
      SentParts(t, ps, c);
      StopWindow(t);
      RunFront(d, m, ps, n - 1);
      CountedTelegram(d, m, t, t, ps, c, i);
      var e := Run(d, m, Us(ps)).0;
      if !StopLow(t, 40 * t) {
        WaitingIsUnaware(e, t);
        UnawareBurst(e, m, t, ps, c, n - 1);
        NotReceivable(t, m, n);
      } else if i + 1 < Needed(m) {
        SynchronisedBurst(e, m, t, ps, c, i + 1, n - 1);
      } else {
        WaitingIsUnaware(e, t);
        UnawareBurst(e, m, t, ps, c, n - 1);
        CallCountSteps(t, m, n - 1);
        CopiesFront(c, CallCount(t, m, n - 1));
      }
    }
  }

  lemma OneNeeded(m: nat)
    ensures Needed(m) > 0
  {
  }

  lemma NotReceivable(t: nat, m: nat, n: nat)
    ensures !Receivable(t) ==> forall k :: CallCount(t, m, k) == 0
    ensures t <= 120 ==> !Receivable(t)
  {
  }

  lemma SentParts(t: nat, ps: seq<Pulse>, c: NewRemoteCode)
    requires Sent(t, ps, c)
    ensures Sendable(t) && Burstable(t, ps) && Body(t, Us(ps), c) && c.period == t
  {
  }

  lemma NothingSent(d: Decoder, m: nat, ps: seq<Pulse>)
    ensures Run(d, m, Us(Repeat(ps, 0))) == (d, [])
  {
    assert Us(Repeat(ps, 0)) == [];
  }

  lemma RunFront(d: Decoder, m: nat, ps: seq<Pulse>, n: nat)
    ensures var (e, calls) := Run(d, m, Us(ps));
            && Run(d, m, Us(Repeat(ps, n + 1))).0 == Run(e, m, Us(Repeat(ps, n))).0
            && Run(d, m, Us(Repeat(ps, n + 1))).1 == calls + Run(e, m, Us(Repeat(ps, n))).1
  {
    hide Run, Us;
    assert Repeat(ps, n + 1) == ps + Repeat(ps, n);
    UsConcat(ps, Repeat(ps, n));
    RunConcat(d, m, Us(ps), Us(Repeat(ps, n)));
  }

  lemma WaitingIsUnaware(d: Decoder, t: nat)
    requires d.state == -1
    ensures Unaware(d, t)
  {
  }

  lemma UnawareIsBetween(d: Decoder, p: nat, t: nat)
    requires Unaware(d, t)
    ensures Between(d, p, t)
  {
  }

  lemma CountingNone(d: Decoder, p: nat, c: NewRemoteCode)
    requires Tracks(d, p, []) && d.repeats == 0
    ensures Counting(d, p, c, 0)
  {
  }

  lemma CountingIsBetween(d: Decoder, p: nat, t: nat, c: NewRemoteCode, i: nat)
    requires Counting(d, p, c, i)
    ensures Between(d, p, t)
  {
  }

  // ---- bursts that find the receiver synchronised on the silence before them ----

  /** `n` whole telegrams to a decoder tuned to `p`, by a pulse that was none of theirs, but close enough to read them:
      the first max(1, m) of them are called back with the period `p`, if their stop pulse is within its window, and the
      rest as ever. */
  function TunedCalls(p: nat, t: nat, m: nat, cp: NewRemoteCode, ct: NewRemoteCode, i: nat, n: nat): seq<NewRemoteCode> {
    if n == 0 then []
    else if !StopLow(p, 40 * t) then Copies(ct, CallCount(t, m, n - 1))
    else if n + i < Needed(m) then []
    else [cp] + Copies(ct, CallCount(t, m, n + i - Needed(m)))
  }

  lemma {:induction false} TunedBurst(d: Decoder, m: nat, p: nat, t: nat, ps: seq<Pulse>, cp: NewRemoteCode, ct: NewRemoteCode,
                                      i: nat, n: nat)
    requires m < 256 && Sent(t, ps, ct) && i < Needed(m) && Counting(d, p, cp, i)
    requires Body(p, Us(ps), cp) && cp.period == p && !Part(p, 40 * t)
    ensures Between(Run(d, m, Us(Repeat(ps, n))).0, p, t)
    ensures Run(d, m, Us(Repeat(ps, n))).1 == TunedCalls(p, t, m, cp, ct, i, n)
    decreases n
  {
    hide *;
    TunedCallsSteps(p, t, m, cp, ct, i, n);
    if n == 0 {
      NothingSent(d, m, ps);
      CountingIsBetween(d, p, t, cp, i);
    } else {
      SentParts(t, ps, ct);
      RunFront(d, m, ps, n - 1);
      CountedTelegram(d, m, p, t, ps, cp, i);
      var e := Run(d, m, Us(ps)).0;
      if StopLow(p, 40 * t) && i + 1 < Needed(m) {
        TunedBurst(e, m, p, t, ps, cp, ct, i + 1, n - 1);
      } else {
        WaitingIsUnaware(e, t);
        UnawareBurst(e, m, t, ps, ct, n - 1);
        BetweenAlso(Run(e, m, Us(Repeat(ps, n - 1))).0, p, t);
      }
    }
  }

  /** What becomes of the calls due when the first telegram has been read. */
  lemma TunedCallsSteps(p: nat, t: nat, m: nat, cp: NewRemoteCode, ct: NewRemoteCode, i: nat, n: nat)
    requires i < Needed(m)
    ensures TunedCalls(p, t, m, cp, ct, i, 0) == []
    ensures n > 0 && StopLow(p, 40 * t) && i + 1 < Needed(m) ==>
              TunedCalls(p, t, m, cp, ct, i, n) == [] + TunedCalls(p, t, m, cp, ct, i + 1, n - 1)
    ensures n > 0 && StopLow(p, 40 * t) && i + 1 >= Needed(m) ==>
              TunedCalls(p, t, m, cp, ct, i, n) == [cp] + Copies(ct, CallCount(t, m, n - 1))
    ensures n > 0 && !StopLow(p, 40 * t) ==> TunedCalls(p, t, m, cp, ct, i, n) == [] + Copies(ct, CallCount(t, m, n - 1))
  {
    hide StopLow, Copies, CallCount;
  }

  lemma BetweenAlso(d: Decoder, p: nat, t: nat)
    requires Between(d, t, t)
    ensures Between(d, p, t)
  {
  }

  // ---- the edges of a burst ----

  /** Waiting for a synchronisation pulse; the last edges may have been at any time. */
  predicate Idle(r: Receiver) {
    r.enabled && r.decoder.state == -1
  }

  /** The pulse that ended with the receiver's last edge: the next edge hands it to the decoder. */
  function PendingPulse(r: Receiver): nat {
    if r.skip then 0 else Elapsed(r.e0, r.e2) % WORD16
  }

  /** The time since then, as the receiver will measure it if the next edge is at `start`. */
  function IdleTime(r: Receiver, start: nat): nat {
    Elapsed(if r.skip then r.e0 else r.e2, Stamp(start)) % WORD16
  }

  /** Long enough to be taken for a stop pulse. */
  predicate Synchronises(x: nat) {
    x > 4800
  }

  /** The shortest pulse that passes the filter of a receiver synchronised on a pulse of length `x`. */
  function Shortest(x: nat): nat {
    x / 40 * 3 / 10
  }

  /** The first edge of a burst. */
  lemma FirstEdge(r: Receiver, m: nat, start: nat)
    requires Idle(r)
    ensures var (r1, c1) := Edge(r, m, Stamp(start));
            var pending := PendingPulse(r);
            && c1.None? && r1.enabled && !r1.skip && r1.e2 == Stamp(start)
            && Elapsed(r1.e0, r1.e2) % WORD16 == IdleTime(r, start)
            && (if Synchronises(pending) then Tracks(r1.decoder, pending / 40, []) && r1.decoder.min1Period == Shortest(pending)
                else r1.decoder == r.decoder)
  {
    hide Elapsed;
  }

  /** Every other pulse, from the first one on, lasts `t`. */
  predicate Highs(t: nat, us: seq<nat>)
    decreases |us|
  {
    us == [] || (us[0] == t && (|us| == 1 || Highs(t, us[2..])))
  }

  /** A receiver that has seen an edge at `s`, and filters pulses of length `t`. */
  predicate Blocked(r: Receiver, s: nat, t: nat) {
    r.enabled && !r.skip && r.e2 == Stamp(s) && r.decoder.state >= 0 && t < r.decoder.min1Period
  }

  /** High pulses that are too short for the filter take all edges of the burst with them. */
  lemma {:induction false} BlockedRun(r: Receiver, m: nat, s: nat, t: nat, us: seq<nat>)
    requires Blocked(r, s, t) && Highs(t, us) && t < WORD32
    ensures EdgeRun(r, m, Stamps(Ends(s, us))).1 == []
    decreases |us|
  {
    hide Edge, Stamp, Elapsed, Blocked;
    if us == [] {
      assert Stamps(Ends(s, us)) == [];
    } else {
      var (r1, c1) := Edge(r, m, Stamp(s + t));
      BlockedPair(r, m, s, t, if |us| == 1 then 0 else us[1]);
      if |us| == 1 {
        assert Ends(s + t, us[1..]) == [];
        assert Stamps(Ends(s, us)) == [Stamp(s + t)] + [];
      } else {
        var b := s + t + us[1];
        var times := Stamps(Ends(s, us));
        assert us[1..][1..] == us[2..] && us[1..][0] == us[1];
        assert Ends(s, us) == [s + t] + ([b] + Ends(b, us[2..]));
        assert times == [Stamp(s + t), Stamp(b)] + Stamps(Ends(b, us[2..]));
        assert times[2..] == Stamps(Ends(b, us[2..]));
        EdgeRunTwo(r, m, times);
        BlockedRun(Edge(r1, m, Stamp(b)).0, m, b, t, us[2..]);
      }
    }
  }

  lemma BlockedPair(r: Receiver, m: nat, s: nat, t: nat, y: nat)
    requires Blocked(r, s, t) && t < WORD32
    ensures var (r1, c1) := Edge(r, m, Stamp(s + t));
            var (r2, c2) := Edge(r1, m, Stamp(s + t + y));
            c1.None? && c2.None? && Blocked(r2, s + t + y, t)
  {
    hide Stamp, Elapsed, Feed;
    ShortPulse(r, m, s, s + t);
  }

  /** High pulses of length `t`, and between them low ones that are no shorter; a receiver that lets `t` pass goes on doing
      so whichever of them it synchronises on. */
  predicate Pairs(t: nat, ps: seq<Pulse>)
    decreases |ps|
  {
    ps == [] ||
    (|ps| >= 2 && ps[0] == High(t) && !ps[1].high && t <= ps[1].us && Harmless(ps[1].us, t) && Pairs(t, ps[2..]))
  }

  lemma {:induction false} PairsConcat(t: nat, a: seq<Pulse>, b: seq<Pulse>)
    requires Pairs(t, a) && Pairs(t, b)
    ensures Pairs(t, a + b)
    decreases |a|
  {
    hide Harmless;
    if a == [] {
      assert a + b == b;
    } else {
      assert (a + b)[2..] == a[2..] + b;
      PairsConcat(t, a[2..], b);
    }
  }

  lemma OnePairs(t: nat, x: nat)
    requires t <= x && Harmless(x, t)
    ensures Pairs(t, [High(t), Low(x)])
  {
    hide Harmless;
    assert [High(t), Low(x)][2..] == [];
  }

  lemma {:induction false} ShapedPairs(t: nat, ps: seq<Pulse>)
    requires Sendable(t) && Shaped(t, ps)
    ensures Pairs(t, ps)
    decreases |ps|
  {
    if ps != [] {
      hide Harmless, LowLength;
      LowHarmless(t, ps[1].us);
      ShapedPairs(t, ps[2..]);
    }
  }

  lemma LowHarmless(t: nat, x: nat)
    requires Sendable(t) && LowLength(t, x)
    ensures t <= x && Harmless(x, t)
  {
    LowIsShortOf40(t, x);
  }

  lemma HighHarmless(t: nat)
    requires Sendable(t)
    ensures Harmless(t, t) && Harmless(40 * t, t)
  {
    Division40(40 * t);
  }

  lemma TelegramPairs(t: nat, ps: seq<Pulse>)
    requires Sendable(t) && Burstable(t, ps)
    ensures Pairs(t, ps)
  {
    var n := |ps|;
    var head, middle, stop := ps[..2], ps[2..n - 2], ps[n - 2..];
    assert ps == head + middle + stop;
    hide Shaped, Pairs, Harmless;
    HighHarmless(t);
    StartHarmless(t);
    OnePairs(t, 10 * t + t / 2);
    OnePairs(t, 40 * t);
    ShapedPairs(t, middle);
    PairsConcat(t, head, middle);
    PairsConcat(t, head + middle, stop);
  }

  lemma StartHarmless(t: nat)
    requires Sendable(t)
    ensures t <= 10 * t + t / 2 && Harmless(10 * t + t / 2, t)
  {
    LowHarmless(t, 10 * t + t / 2);
  }

  lemma {:induction false} BurstPairs(t: nat, ps: seq<Pulse>, n: nat)
    requires Sendable(t) && Burstable(t, ps)
    ensures Pairs(t, Repeat(ps, n))
  {
    if n > 0 {
      hide Pairs, Burstable;
      BurstPairs(t, ps, n - 1);
      TelegramPairs(t, ps);
      PairsConcat(t, ps, Repeat(ps, n - 1));
    }
  }

  lemma {:induction false} PairsAlternate(t: nat, ps: seq<Pulse>)
    requires Pairs(t, ps)
    ensures Alternating(true, ps)
    decreases |ps|
  {
    hide Harmless;
    if ps != [] {
      PairsAlternate(t, ps[2..]);
      assert ps[1..][1..] == ps[2..];
    }
  }

  lemma {:induction false} PairsAreHighs(t: nat, ps: seq<Pulse>)
    requires Pairs(t, ps)
    ensures Highs(t, Us(ps))
    decreases |ps|
  {
    hide Harmless;
    if ps != [] {
      PairsAreHighs(t, ps[2..]);
      assert Us(ps)[2..] == Us(ps[2..]);
    }
  }

  lemma {:induction false} PairsHarmless(t: nat, ps: seq<Pulse>)
    requires Pairs(t, ps) && Harmless(t, t)
    ensures forall x :: x in Us(ps) ==> t <= x && Harmless(x, t)
    decreases |ps|
  {
    hide Harmless;
    if ps != [] {
      PairsHarmless(t, ps[2..]);
      assert Us(ps) == [ps[0].us, ps[1].us] + Us(ps[2..]);
    }
  }

  // ---- a receiver at the other end ----

  /** The receiver has synchronised on the silence before the burst, or on the pulse before that, and now takes all its
      high pulses for glitches. */
  predicate Stuck(pending: nat, idle: nat, t: nat) {
    if Synchronises(pending) then t < Shortest(pending) else Synchronises(idle) && t < Shortest(idle)
  }

  /** It has synchronised on the silence, by a measure that lets it read the burst. */
  predicate Attuned(pending: nat, idle: nat, t: nat) {
    !Synchronises(pending) && Synchronises(idle) && StartLow(idle / 40, 10 * t + t / 2)
  }

  /** A receiver that has synchronised on the silence is not blocked by the very first low pulse. */
  predicate Passes(pending: nat, idle: nat, t: nat) {
    Synchronises(pending) || !Synchronises(idle) || t >= 47
  }

  /** Where the decoder stands when the first pulse of the burst is handed to it. */
  predicate Met(d: Decoder, pending: nat, idle: nat, t: nat) {
    if Attuned(pending, idle, t) then Tracks(d, idle / 40, []) && d.repeats == 0 else Unaware(d, t)
  }

  /** From the first edge on: a receiver with the pulse `idle` pending, and a decoder that waits or has synchronised on
      the pulse before it. */
  predicate Started(r: Receiver, pending: nat, idle: nat, start: nat) {
    && r.enabled && !r.skip && r.e2 == Stamp(start) && Elapsed(r.e0, r.e2) % WORD16 == idle
    && pending < WORD16 && idle < WORD16
    && (if Synchronises(pending) then Tracks(r.decoder, pending / 40, []) && r.decoder.min1Period == Shortest(pending)
        else r.decoder.state == -1)
  }

  lemma StartsAt(r: Receiver, m: nat, start: nat)
    requires Idle(r)
    ensures Edge(r, m, Stamp(start)).1.None?
    ensures Started(Edge(r, m, Stamp(start)).0, PendingPulse(r), IdleTime(r, start), start)
  {
    assert PendingPulse(r) < WORD16 && IdleTime(r, start) < WORD16;
    hide PendingPulse, IdleTime, Edge, Tracks;
    FirstEdge(r, m, start);
  }

  /** If the burst gets through, its pulses reach the decoder as they were sent, except for the last two. */
  lemma ReachesDecoder(r: Receiver, m: nat, pending: nat, idle: nat, start: nat, t: nat, us: seq<nat>)
    requires Started(r, pending, idle, start) && !Stuck(pending, idle, t) && Sendable(t) && |us| >= 2
    requires forall x :: x in us ==> t <= x && Harmless(x, t)
    ensures Met(Feed(r.decoder, m, idle).0, pending, idle, t)
    ensures EdgeRun(r, m, Stamps(Ends(start, us[..|us| - 1]))).1 == Run(Feed(r.decoder, m, idle).0, m, us[..|us| - 2]).1
  {
    var n := |us|;
    var xs := us[..n - 1];
    MeetsDecoder(r.decoder, m, pending, idle, t);
    assert forall x :: x in xs ==> x in us;
    hide Feed, Harmless, Tolerates, Met, Stuck, EdgeRun, Run;
    EdgesFeed(r, m, idle, start, xs, t);
    assert ([idle] + xs)[..n - 1] == [idle] + us[..n - 2];
    NoCallFirst(r.decoder, m, idle, us[..n - 2]);
  }

  lemma NoCallFirst(d: Decoder, m: nat, x: nat, us: seq<nat>)
    requires Feed(d, m, x).1.None?
    ensures Run(d, m, [x] + us).1 == Run(Feed(d, m, x).0, m, us).1
  {
    hide Feed;
    assert ([x] + us)[1..] == us;
  }

  lemma MeetsDecoder(d: Decoder, m: nat, pending: nat, idle: nat, t: nat)
    requires pending < WORD16 && idle < WORD16 && !Stuck(pending, idle, t) && Sendable(t)
    requires if Synchronises(pending) then Tracks(d, pending / 40, []) && d.min1Period == Shortest(pending) else d.state == -1
    ensures var (e, c) := Feed(d, m, idle);
            && c.None? && Met(e, pending, idle, t)
            && d.state >= -32768 && Tolerates(d, t) && Tolerates(e, t)
  {
    if Synchronises(pending) {
      FirstPulse(d, m, pending / 40, idle);
      MisledBySilence(d, m, pending / 40, idle, t);
    } else if Synchronises(idle) {
      Synchronised40(d, m, idle);
    }
  }

  lemma Synchronised40(d: Decoder, m: nat, x: nat)
    requires d.state == -1 && Synchronises(x) && x < WORD16
    ensures var (e, c) := Feed(d, m, x);
            c.None? && Tracks(e, x / 40, []) && e.code.period == x / 40 && e.repeats == 0 && e.min1Period == Shortest(x)
  {
    Division40(x);
  }

  lemma MisledBySilence(d: Decoder, m: nat, p: nat, x: nat, t: nat)
    requires Tracks(d, p, []) && d.min1Period <= t
    ensures var (e, c) := Feed(d, m, x); c.None? && Unaware(e, t) && Tolerates(d, t) && Tolerates(e, t)
  {
  }

  /** If it does not get through, nobody is called. */
  lemma NothingHeard(r: Receiver, m: nat, pending: nat, idle: nat, start: nat, t: nat, us: seq<nat>)
    requires Started(r, pending, idle, start) && Stuck(pending, idle, t) && Passes(pending, idle, t) && Sendable(t)
    requires |us| >= 2 && us[1] == 10 * t + t / 2 && Highs(t, us)
    ensures EdgeRun(r, m, Stamps(Ends(start, us))).1 == []
  {
    if Synchronises(pending) {
      hide Edge, EdgeRun, Highs;
      BlockedRun(r, m, start, t, us);
    } else {
      var b := start + t + us[1];
      var times := Stamps(Ends(start, us));
      assert us[1..][1..] == us[2..] && us[1..][0] == us[1] && us[0] == t;
      assert Ends(start, us) == [start + t] + ([b] + Ends(b, us[2..]));
      assert times == [Stamp(start + t), Stamp(b)] + Stamps(Ends(b, us[2..]));
      assert times[2..] == Stamps(Ends(b, us[2..]));
      hide Edge, EdgeRun, Started, Stuck, Passes, Stamp;
      SilenceBlocks(r, m, pending, idle, start, t);
      EdgeRunTwo(r, m, times);
      NoCallbacks();
      BlockedRun(Edge(Edge(r, m, Stamp(start + t)).0, m, Stamp(b)).0, m, b, t, us[2..]);
    }
  }

  /** The end of the first high pulse hands the silence to the decoder, and the end of the first low one the high one. */
  lemma SilenceBlocks(r: Receiver, m: nat, pending: nat, idle: nat, start: nat, t: nat)
    requires Started(r, pending, idle, start) && !Synchronises(pending) && Sendable(t)
    requires Stuck(pending, idle, t) && Passes(pending, idle, t)
    ensures var b := start + t + (10 * t + t / 2);
            var (r1, c1) := Edge(r, m, Stamp(start + t));
            var (r2, c2) := Edge(r1, m, Stamp(b));
            c1.None? && c2.None? && Blocked(r2, b, t)
  {
    var a, b := start + t, start + t + (10 * t + t / 2);
    hide Stamp, Elapsed, Edge, Feed, Tracks;
    FeedingEdge(r, m, start, a);
    Synchronised40(r.decoder, m, idle);
    var r1 := Edge(r, m, Stamp(a)).0;
    ElapsedIs(start, a);
    SmallMod(t, WORD16);
    ShortestBound(idle);
    TracksState(r1.decoder, idle / 40, []);
    FeedingEdge(r1, m, a, b);
    HighAfterSilence(r1.decoder, m, idle, t);
  }

  lemma ShortestBound(x: nat)
    requires x < WORD16
    ensures Shortest(x) <= 491
  {
    Division40(x);
  }

  lemma HighAfterSilence(d: Decoder, m: nat, x: nat, t: nat)
    requires Tracks(d, x / 40, []) && d.min1Period == Shortest(x) && t < Shortest(x)
    ensures var (e, c) := Feed(d, m, t); c.None? && e.state == 1 && e.min1Period == d.min1Period
  {
  }

  /** All but the last two pulses of a burst of `n` telegrams: `n - 1` whole ones, and one that is cut. */
  lemma CutBurst(d: Decoder, m: nat, ps: seq<Pulse>, n: nat)
    requires |ps| >= 2 && n > 0
    ensures |Us(Repeat(ps, n))| >= 2
    ensures var us := Us(Repeat(ps, n));
            var (e, calls) := Run(d, m, Us(Repeat(ps, n - 1)));
            Run(d, m, us[..|us| - 2]).1 == calls + Run(e, m, Us(ps)[..|ps| - 2]).1
  {
    hide Run, Repeat;
    RepeatSnoc(ps, n - 1);
    var init := Repeat(ps, n - 1);
    UsConcat(init, ps);
    hide Us;
    var us := Us(init) + Us(ps);
    assert us[..|us| - 2] == Us(init) + Us(ps)[..|ps| - 2];
    RunConcat(d, m, Us(init), Us(ps)[..|ps| - 2]);
  }

  /** A telegram without its stop pulse calls nobody, wherever it finds the decoder. */
  lemma CutTelegram(d: Decoder, m: nat, p: nat, t: nat, ps: seq<Pulse>, cp: NewRemoteCode, ct: NewRemoteCode)
    requires Sendable(t) && Burstable(t, ps) && Between(d, p, t)
    requires Readable(t, Us(ps), ct) && (Tracks(d, p, []) ==> Readable(p, Us(ps), cp))
    ensures |Us(ps)| == |ps| >= 2 && Run(d, m, Us(ps)[..|ps| - 2]).1 == []
  {
    hide Burstable, Readable, Tracks, Run, Unaware;
    BurstableLengths(t, ps);
    if Unaware(d, t) {
      UnawareHead(d, m, t, ps);
    } else if Tracks(d, p, []) {
      ReadsBeginning(d, m, p, Us(ps), cp, |ps| - 2);
    } else {
      ReadsBeginning(d, m, t, Us(ps), ct, |ps| - 2);
    }
  }

  /** The edges of a burst, from the first one on. */
  lemma EdgesOfBurst(start: nat, t: nat, ps: seq<Pulse>, n: nat)
    requires Sendable(t) && Burstable(t, ps) && n > 0
    ensures var burst := Repeat(ps, n);
            var us := Us(burst);
            && |us| >= 4 && us[1] == 10 * t + t / 2
            && LevelChanges(false, start, burst) == [start] + Ends(start, us[..|us| - 1])
            && Highs(t, us[..|us| - 1])
            && forall x :: x in us ==> t <= x && Harmless(x, t)
  {
    hide Repeat, Shaped, Harmless, Highs, LevelChanges, Alternating, Pairs, Burstable;
    var burst := Repeat(ps, n);
    BurstStarts(t, ps, n);
    BurstPairs(t, ps, n);
    PairsAlternate(t, burst);
    PairsAreHighs(t, burst);
    HighHarmless(t);
    PairsHarmless(t, burst);
    ChangesAreEnds(true, start, burst);
    HighsPrefix(t, Us(burst));
  }

  lemma BurstStarts(t: nat, ps: seq<Pulse>, n: nat)
    requires Burstable(t, ps) && n > 0
    ensures var burst := Repeat(ps, n);
            |burst| == |Us(burst)| >= 4 && Us(burst)[1] == 10 * t + t / 2 && burst != []
  {
    var burst := Repeat(ps, n);
    assert burst == ps + Repeat(ps, n - 1);
    assert burst[1] == ps[..2][1];
  }

  lemma {:induction false} HighsPrefix(t: nat, us: seq<nat>)
    requires Highs(t, us) && us != []
    ensures Highs(t, us[..|us| - 1])
    decreases |us|
  {
    if |us| > 2 {
      HighsPrefix(t, us[2..]);
      assert us[..|us| - 1][2..] == us[2..][..|us| - 3];
    }
  }

  /** What a burst of any telegrams does to a receiver. */
  lemma BurstReaches(r: Receiver, m: nat, start: nat, t: nat, ps: seq<Pulse>, n: nat) returns (d: Decoder)
    requires Idle(r) && Sendable(t) && Burstable(t, ps) && n > 0
    requires Passes(PendingPulse(r), IdleTime(r, start), t)
    ensures |Us(Repeat(ps, n))| >= 2
    ensures Met(d, PendingPulse(r), IdleTime(r, start), t) || Stuck(PendingPulse(r), IdleTime(r, start), t)
    ensures var us := Us(Repeat(ps, n));
            EdgeRun(r, m, Stamps(LevelChanges(false, start, Repeat(ps, n)))).1 ==
            if Stuck(PendingPulse(r), IdleTime(r, start), t) then [] else Run(d, m, us[..|us| - 2]).1
  {
    hide *;
    var pending, idle, us := PendingPulse(r), IdleTime(r, start), Us(Repeat(ps, n));
    var r1 := Edge(r, m, Stamp(start)).0;
    StartsAt(r, m, start);
    EdgesOfBurst(start, t, ps, n);
    FirstEdgeApart(r, m, start, us[..|us| - 1]);
    d := Feed(r1.decoder, m, idle).0;
    if Stuck(pending, idle, t) {
      assert us[..|us| - 1][1] == us[1];
      NothingHeard(r1, m, pending, idle, start, t, us[..|us| - 1]);
    } else {
      ReachesDecoder(r1, m, pending, idle, start, t, us);
    }
  }

  lemma FirstEdgeApart(r: Receiver, m: nat, start: nat, us: seq<nat>)
    requires Edge(r, m, Stamp(start)).1.None?
    ensures EdgeRun(r, m, Stamps([start] + Ends(start, us))).1 ==
            EdgeRun(Edge(r, m, Stamp(start)).0, m, Stamps(Ends(start, us))).1
  {
    hide Edge;
    var times := Stamps([start] + Ends(start, us));
    assert times[0] == Stamp(start) && times[1..] == Stamps(Ends(start, us));
  }

  // ---- switching ----

  /** The callbacks for `n` telegrams, the last of which ends with the line staying low. */
  function BurstCalls(pending: nat, idle: nat, t: nat, m: nat, address: nat, group: bool, on: bool, unit: nat, n: nat):
    seq<NewRemoteCode>
  {
    var ct := SentCode(t, address, group, on, unit);
    if n == 0 || Stuck(pending, idle, t) then []
    else if Attuned(pending, idle, t) then
      var p := idle / 40;
      TunedCalls(p, t, m, SentCode(p, address, group, on, unit), ct, 0, n - 1)
    else Copies(ct, CallCount(t, m, n - 1))
  }

  /** End to end. A receiver that waits for synchronisation sees, from time `start` on, `n` telegrams sent with period
      `t`. As a rule, which is that neither the silence before them nor the pulse before that was long enough to be taken
      for a stop pulse, it calls back floor((n - 1) / (max(1, minRepeats) + 1)) times, every time with the code that was
      sent, when the period lies between 121 and 819; for every other period that the sender's arithmetic allows, it never
      does. The exceptions: it has synchronised on one of these, and then filters the burst out, or reads the first
      telegrams with the period that the silence seemed to have, or loses them and is back to the rule. */
  lemma BurstReceived(r: Receiver, m: nat, start: nat, t: nat, address: nat, group: bool, on: bool, unit: nat, n: nat)
    requires Idle(r) && m < 256 && Sendable(t) && Passes(PendingPulse(r), IdleTime(r, start), t)
    ensures var burst := Repeat(TelegramPulses(t, address, group, on, unit), n);
            EdgeRun(r, m, Stamps(LevelChanges(false, start, burst))).1 ==
            BurstCalls(PendingPulse(r), IdleTime(r, start), t, m, address, group, on, unit, n)
    ensures !Synchronises(PendingPulse(r)) && !Synchronises(IdleTime(r, start)) && n > 0 ==>
              BurstCalls(PendingPulse(r), IdleTime(r, start), t, m, address, group, on, unit, n) ==
              Copies(SentCode(t, address, group, on, unit), CallCount(t, m, n - 1))
  {
    hide TelegramPulses, Edge, Feed, Run, Us, Copies, CallCount, TunedCalls, Burstable, PendingPulse, IdleTime, Shortest, StartLow,
         Met, LevelChanges, SentCode;
    var ps := TelegramPulses(t, address, group, on, unit);
    if n == 0 {
      NoEdges(r, m, start, ps);
    } else {
      TelegramBurstable(t, address, group, on, unit);
      var d := BurstReaches(r, m, start, t, ps, n);
      if !Stuck(PendingPulse(r), IdleTime(r, start), t) {
        CallsOfCutBurst(d, m, PendingPulse(r), IdleTime(r, start), t, address, group, on, unit, n);
      }
    }
  }

  /** So it can call back more often than the rule says, and with another period: after 10 milliseconds of silence three
      telegrams of period 260 are enough for a receiver that wants two in a row, because it need not spend the first one on
      synchronising. */
  lemma SilenceHelps(address: nat, group: bool, on: bool, unit: nat)
    ensures BurstCalls(0, 10000, 260, 2, address, group, on, unit, 3) == [SentCode(250, address, group, on, unit)]
    ensures CallCount(260, 2, 3 - 1) == 0
  {
    assert Attuned(0, 10000, 260) && !Stuck(0, 10000, 260) && StopLow(250, 40 * 260);
    var cp, ct := SentCode(250, address, group, on, unit), SentCode(260, address, group, on, unit);
    assert TunedCalls(250, 260, 2, cp, ct, 0, 2) == [cp] + Copies(ct, CallCount(260, 2, 0));
    NoCopies(ct);
  }

  lemma NoEdges(r: Receiver, m: nat, start: nat, ps: seq<Pulse>)
    ensures EdgeRun(r, m, Stamps(LevelChanges(false, start, Repeat(ps, 0)))).1 == []
  {
    assert Stamps([]) == [];
  }

  /** Once the burst has reached the decoder. */
  lemma CallsOfCutBurst(d: Decoder, m: nat, pending: nat, idle: nat, t: nat, address: nat, group: bool, on: bool, unit: nat, n: nat)
    requires m < 256 && Sendable(t) && n > 0 && Met(d, pending, idle, t) && !Stuck(pending, idle, t)
    ensures |Us(Repeat(TelegramPulses(t, address, group, on, unit), n))| >= 2
    ensures var us := Us(Repeat(TelegramPulses(t, address, group, on, unit), n));
            Run(d, m, us[..|us| - 2]).1 == BurstCalls(pending, idle, t, m, address, group, on, unit, n)
  {
    hide *;
    MetMeans(d, pending, idle, t);
    BurstCallsAre(pending, idle, t, m, address, group, on, unit, n);
    TelegramBurstable(t, address, group, on, unit);
    CutBurst(d, m, TelegramPulses(t, address, group, on, unit), n);
    if Attuned(pending, idle, t) {
      AttunedCutBurst(d, m, idle / 40, t, address, group, on, unit, n);
    } else {
      UnawareCutBurst(d, m, t, address, group, on, unit, n);
    }
  }

  lemma MetMeans(d: Decoder, pending: nat, idle: nat, t: nat)
    requires Met(d, pending, idle, t)
    ensures if Attuned(pending, idle, t) then Tracks(d, idle / 40, []) && d.repeats == 0 && StartLow(idle / 40, 10 * t + t / 2)
            else Unaware(d, t)
  {
  }

  lemma BurstCallsAre(pending: nat, idle: nat, t: nat, m: nat, address: nat, group: bool, on: bool, unit: nat, n: nat)
    requires n > 0 && !Stuck(pending, idle, t)
    ensures var ct := SentCode(t, address, group, on, unit);
            BurstCalls(pending, idle, t, m, address, group, on, unit, n) ==
            if Attuned(pending, idle, t) then
              TunedCalls(idle / 40, t, m, SentCode(idle / 40, address, group, on, unit), ct, 0, n - 1)
            else Copies(ct, CallCount(t, m, n - 1))
  {
  }

  lemma UnawareCutBurst(d: Decoder, m: nat, t: nat, address: nat, group: bool, on: bool, unit: nat, n: nat)
    requires m < 256 && Sendable(t) && n > 0 && Unaware(d, t)
    ensures |TelegramPulses(t, address, group, on, unit)| == |Us(TelegramPulses(t, address, group, on, unit))| >= 2
    ensures var ps, c := TelegramPulses(t, address, group, on, unit), SentCode(t, address, group, on, unit);
            var (e, calls) := Run(d, m, Us(Repeat(ps, n - 1)));
            calls + Run(e, m, Us(ps)[..|ps| - 2]).1 == Copies(c, CallCount(t, m, n - 1))
  {
    hide *;
    var ps, c := TelegramPulses(t, address, group, on, unit), SentCode(t, address, group, on, unit);
    TelegramBurstable(t, address, group, on, unit);
    TelegramSent(t, address, group, on, unit);
    UnawareBurst(d, m, t, ps, c, n - 1);
    CutTelegram(Run(d, m, Us(Repeat(ps, n - 1))).0, m, t, t, ps, c, c);
  }

  lemma AttunedCutBurst(d: Decoder, m: nat, p: nat, t: nat, address: nat, group: bool, on: bool, unit: nat, n: nat)
    requires m < 256 && Sendable(t) && n > 0 && Tracks(d, p, []) && d.repeats == 0 && StartLow(p, 10 * t + t / 2)
    ensures |TelegramPulses(t, address, group, on, unit)| == |Us(TelegramPulses(t, address, group, on, unit))| >= 2
    ensures var ps, ct := TelegramPulses(t, address, group, on, unit), SentCode(t, address, group, on, unit);
            var (e, calls) := Run(d, m, Us(Repeat(ps, n - 1)));
            calls + Run(e, m, Us(ps)[..|ps| - 2]).1 == TunedCalls(p, t, m, SentCode(p, address, group, on, unit), ct, 0, n - 1)
  {
    hide *;
    var ps, ct, cp := TelegramPulses(t, address, group, on, unit), SentCode(t, address, group, on, unit),
                      SentCode(p, address, group, on, unit);
    TelegramBurstable(t, address, group, on, unit);
    TelegramSent(t, address, group, on, unit);
    TunedTo(d, p, t);
    SentBody(p, t, address, group, on, unit);
    CodePeriod(p, address, group, on, unit);
    CountingNone(d, p, cp);
    OneNeeded(m);
    TunedBurst(d, m, p, t, ps, cp, ct, 0, n - 1);
    BodyIsReadable(p, Us(ps), cp);
    CutTelegram(Run(d, m, Us(Repeat(ps, n - 1))).0, m, p, t, ps, cp, ct);
  }

  lemma CodePeriod(p: nat, address: nat, group: bool, on: bool, unit: nat)
    ensures SentCode(p, address, group, on, unit).period == p
  {
  }

  lemma BodyIsReadable(p: nat, ds: seq<nat>, c: NewRemoteCode)
    requires Body(p, ds, c)
    ensures Readable(p, ds, c)
  {
  }

  lemma TunedTo(d: Decoder, p: nat, t: nat)
    requires Tracks(d, p, []) && Sendable(t) && StartLow(p, 10 * t + t / 2)
    ensures Reads(p, t) && !Part(p, 40 * t)
  {
    StartDecides(p, t);
  }

  lemma TelegramSent(t: nat, address: nat, group: bool, on: bool, unit: nat)
    requires Sendable(t)
    ensures var ps, c := TelegramPulses(t, address, group, on, unit), SentCode(t, address, group, on, unit);
            Sent(t, ps, c) && Readable(t, Us(ps), c)
  {
    hide TelegramPulses, Body, Us, Burstable;
    ReadsItself(t);
    SentBody(t, t, address, group, on, unit);
    TelegramBurstable(t, address, group, on, unit);
  }

  // ---- dimming ----

  /** `n` whole telegrams of `sendDim`: the decoder synchronises on the stop pulse of one, and loses the next. */
  lemma {:induction false} DimBurst(d: Decoder, m: nat, p: nat, t: nat, ps: seq<Pulse>, cp: NewRemoteCode, ct: NewRemoteCode, n: nat)
    requires Sendable(t) && Burstable(t, ps) && DimBody(t, Us(ps), ct) && Between(d, p, t)
    requires Tracks(d, p, []) ==> DimBody(p, Us(ps), cp) && !Part(p, 40 * t)
    ensures var (e, calls) := Run(d, m, Us(Repeat(ps, n)));
            calls == [] && if n == 0 then e == d else Between(e, t, t)
    decreases n
  {
    hide *;
    if n == 0 {
      NothingSent(d, m, ps);
    } else {
      RunFront(d, m, ps, n - 1);
      var e := OneDim(d, m, p, t, ps, cp, ct);
      DimBurst(e, m, t, t, ps, ct, ct, n - 1);
    }
  }

  lemma OneDim(d: Decoder, m: nat, p: nat, t: nat, ps: seq<Pulse>, cp: NewRemoteCode, ct: NewRemoteCode) returns (e: Decoder)
    requires Sendable(t) && Burstable(t, ps) && DimBody(t, Us(ps), ct) && Between(d, p, t)
    requires Tracks(d, p, []) ==> DimBody(p, Us(ps), cp) && !Part(p, 40 * t)
    ensures e == Run(d, m, Us(ps)).0 && Run(d, m, Us(ps)).1 == [] && Between(e, t, t) && !Part(t, 40 * t)
  {
    hide Burstable, DimBody, Tracks, Run, Unaware, Part, Us;
    e := Run(d, m, Us(ps)).0;
    StopWindow(t);
    BurstableLengths(t, ps);
    DimLength(t, Us(ps), ct);
    if Unaware(d, t) {
      UnawareTelegram(d, m, t, ps);
      if t <= 120 {
        WaitingIsUnaware(e, t);
      }
    } else if Tracks(d, p, []) {
      DimRefused(d, m, p, Us(ps), cp);
      WaitingIsUnaware(e, t);
    } else {
      DimRefused(d, m, t, Us(ps), ct);
      WaitingIsUnaware(e, t);
    }
  }

  lemma AtLeastOneUs(t: nat)
    requires Sendable(t)
    ensures t >= 1
  {
  }

  lemma DimIsReadable(p: nat, ds: seq<nat>, c: NewRemoteCode)
    requires DimBody(p, ds, c)
    ensures Readable(p, ds, c)
  {
  }

  lemma DimCallsOfCutBurst(d: Decoder, m: nat, pending: nat, idle: nat, t: nat, address: nat, unit: nat, dimLevel: nat, n: nat)
    requires Sendable(t) && t >= 1 && n > 0 && Met(d, pending, idle, t)
    ensures |Us(Repeat(DimPulses(t, address, unit, dimLevel), n))| >= 2
    ensures var us := Us(Repeat(DimPulses(t, address, unit, dimLevel), n)); Run(d, m, us[..|us| - 2]).1 == []
  {
    hide *;
    MetMeans(d, pending, idle, t);
    if Attuned(pending, idle, t) {
      TrackingIsBetween(d, idle / 40, t);
      TunedTo(d, idle / 40, t);
      DimCutBurst(d, m, idle / 40, t, address, unit, dimLevel, n);
    } else {
      UnawareIsBetween(d, t, t);
      ReadsItself(t);
      StopWindow(t);
      DimCutBurst(d, m, t, t, address, unit, dimLevel, n);
    }
  }

  lemma TrackingIsBetween(d: Decoder, p: nat, t: nat)
    requires Tracks(d, p, [])
    ensures Between(d, p, t)
  {
  }

  lemma DimCutBurst(d: Decoder, m: nat, p: nat, t: nat, address: nat, unit: nat, dimLevel: nat, n: nat)
    requires Sendable(t) && t >= 1 && n > 0 && Between(d, p, t) && Reads(p, t) && !Part(p, 40 * t)
    ensures |Us(Repeat(DimPulses(t, address, unit, dimLevel), n))| >= 2
    ensures var us := Us(Repeat(DimPulses(t, address, unit, dimLevel), n)); Run(d, m, us[..|us| - 2]).1 == []
  {
    hide *;
    var ps, ct, cp := DimPulses(t, address, unit, dimLevel), DimCode(t, address, unit, dimLevel),
                      DimCode(p, address, unit, dimLevel);
    DimBurstable(t, address, unit, dimLevel);
    ReadsItself(t);
    SentDimBody(t, t, address, unit, dimLevel);
    SentDimBody(p, t, address, unit, dimLevel);
    DimIsReadable(t, Us(ps), ct);
    DimIsReadable(p, Us(ps), cp);
    CutBurst(d, m, ps, n);
    DimBurst(d, m, p, t, ps, cp, ct, n - 1);
    if n == 1 {
      CutTelegram(d, m, p, t, ps, cp, ct);
    } else {
      CutTelegram(Run(d, m, Us(Repeat(ps, n - 1))).0, m, t, t, ps, ct, ct);
    }
  }

  /** Whatever `sendDim` is asked to send, and however often: the library's own receiver never calls back. */
  lemma DimNeverReceived(r: Receiver, m: nat, start: nat, t: nat, address: nat, unit: nat, dimLevel: nat, n: nat)
    requires Idle(r) && Sendable(t) && Passes(PendingPulse(r), IdleTime(r, start), t)
    ensures EdgeRun(r, m, Stamps(LevelChanges(false, start, Repeat(DimPulses(t, address, unit, dimLevel), n)))).1 == []
  {
    hide *;
    var ps := DimPulses(t, address, unit, dimLevel);
    if n == 0 {
      NoEdges(r, m, start, ps);
    } else {
      AtLeastOneUs(t);
      DimBurstable(t, address, unit, dimLevel);
      var d := BurstReaches(r, m, start, t, ps, n);
      if !Stuck(PendingPulse(r), IdleTime(r, start), t) {
        DimCallsOfCutBurst(d, m, PendingPulse(r), IdleTime(r, start), t, address, unit, dimLevel, n);
      }
    }
  }

  // ---- the two objects, connected ----

  /** The edges of a transmission, one interrupt each. */
  method Deliver(rx: NewRemoteReceiver, times: seq<nat>)
    requires rx.edgeTimeStamp.Length == 3
    modifies rx, rx.edgeTimeStamp
    ensures rx.minRepeats == old(rx.minRepeats)
    ensures rx.State() == EdgeRun(old(rx.State()), rx.minRepeats, times).0
    ensures rx.calls == old(rx.calls) + EdgeRun(old(rx.State()), rx.minRepeats, times).1
  {
    hide Edge;
    for i := 0 to |times|
      invariant rx.minRepeats == old(rx.minRepeats)
      invariant rx.State() == EdgeRun(old(rx.State()), rx.minRepeats, times[..i]).0
      invariant rx.calls == old(rx.calls) + EdgeRun(old(rx.State()), rx.minRepeats, times[..i]).1
    {
      ghost var before, calls := rx.State(), rx.calls;
      rx.InterruptHandler(times[i]);
      EdgeRunSnoc(old(rx.State()), rx.minRepeats, times, i);
      assert rx.calls == old(rx.calls) + (EdgeRun(old(rx.State()), rx.minRepeats, times[..i]).1
                                          + Callbacks(Edge(before, rx.minRepeats, times[i]).1));
    }
    assert times[..|times|] == times;
  }

  lemma EdgeRunSnoc(r: Receiver, m: nat, times: seq<nat>, i: nat)
    requires i < |times|
    ensures var before := EdgeRun(r, m, times[..i]);
            && EdgeRun(r, m, times[..i + 1]).0 == Edge(before.0, m, times[i]).0
            && EdgeRun(r, m, times[..i + 1]).1 == before.1 + Callbacks(Edge(before.0, m, times[i]).1)
  {
    hide Edge;
    assert times[..i + 1] == times[..i] + [times[i]];
    EdgeRunConcat(r, m, times[..i], [times[i]]);
    var r1 := EdgeRun(r, m, times[..i]).0;
    assert [times[i]][1..] == [];
    assert EdgeRun(r1, m, [times[i]]).1 == Callbacks(Edge(r1, m, times[i]).1) + [];
  }

  /** `SendUnit` at one end of the air, `InterruptHandler` at the other. */
  method SendUnitOverAir(tx: NewRemoteTransmitter, rx: NewRemoteReceiver, unit: nat, switchOn: bool, start: nat)
    requires rx.edgeTimeStamp.Length == 3 && Idle(rx.State()) && rx.minRepeats < 256
    requires Sendable(tx.periodusec) && Passes(PendingPulse(rx.State()), IdleTime(rx.State(), start), tx.periodusec)
    modifies tx, rx, rx.edgeTimeStamp
    ensures rx.calls == old(rx.calls) +
                        BurstCalls(old(PendingPulse(rx.State())), old(IdleTime(rx.State(), start)), tx.periodusec,
                                   old(rx.minRepeats), tx.address, false, switchOn, unit, TelegramCount(tx.repeatMask))
  {
    hide Edge, BurstCalls, PendingPulse, IdleTime, TelegramPulses, TelegramCount, LevelChanges, Copies;
    var sentBefore := |tx.line|;
    tx.SendUnit(unit, switchOn);
    var burst := tx.line[sentBefore..];
    BurstReceived(rx.State(), rx.minRepeats, start, tx.periodusec, tx.address, false, switchOn, unit,
                  TelegramCount(tx.repeatMask));
    Deliver(rx, Stamps(LevelChanges(false, start, burst)));
  }

  /** `SendDim` at one end of the air: nothing at the other. */
  method SendDimOverAir(tx: NewRemoteTransmitter, rx: NewRemoteReceiver, unit: nat, dimLevel: nat, start: nat)
    requires rx.edgeTimeStamp.Length == 3 && Idle(rx.State())
    requires Sendable(tx.periodusec) && Passes(PendingPulse(rx.State()), IdleTime(rx.State(), start), tx.periodusec)
    modifies tx, rx, rx.edgeTimeStamp
    ensures rx.calls == old(rx.calls)
  {
    hide Edge, PendingPulse, IdleTime, DimPulses, TelegramCount, LevelChanges;
    var sentBefore := |tx.line|;
    tx.SendDim(unit, dimLevel);
    var burst := tx.line[sentBefore..];
    DimNeverReceived(rx.State(), rx.minRepeats, start, tx.periodusec, tx.address, unit, dimLevel, TelegramCount(tx.repeatMask));
    Deliver(rx, Stamps(LevelChanges(false, start, burst)));
  }
}
