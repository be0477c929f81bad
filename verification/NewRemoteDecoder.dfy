/** The telegram decoder of the 433 MHz receiver: what one filtered pulse does to its state. */
module NewRemoteDecoder {
  import opened Arithmetic
  import opened Options
  import opened NewRemoteGrammar
  import Sequences

  /** The decoder behind the edge filter. `state` is a 16-bit short. */
  datatype Decoder = Decoder(
    state: int, receivedBit: bv8, code: NewRemoteCode, previous: NewRemoteCode, repeats: nat,
    min1Period: nat, max1Period: nat, min5Period: nat, max5Period: nat)

  function Lost(d: Decoder): Decoder {
    d.(state := -1)
  }

  function Advance(d: Decoder): Decoder {
    d.(state := if d.state == 32767 then -32768 else d.state + 1)
  }

  function Synchronised(d: Decoder, duration: nat): Decoder {
    var period := duration / 40;
    d.(state := 0, repeats := 0, code := d.code.(period := period),
       min1Period := period * 3 / 10, max1Period := period * 3, min5Period := period * 3, max5Period := period * 8)
  }

  /** Shifting a part in: a short one clears the low bit (and the high nibble), a long one sets it. */
  function ShiftedBit(receivedBit: bv8, long: bool): bv8 {
    if long then (receivedBit << 1) | 0x01 else (receivedBit << 1) & 0x0E
  }

  /** One more bit for `value`, if the four parts spell one. */
  function ShiftIn(value: nat, modulus: nat, receivedBit: bv8): Option<nat>
    requires modulus > 0
  {
    match receivedBit & 0x0F
    case 1 => Some(value * 2 % modulus)
    case 4 => Some((value * 2 + 1) % modulus)
    case _ => None
  }

  /** The code after the last part of the symbol that ends in `state`, or nothing if there is no such symbol. */
  function SymbolEnd(state: int, code: NewRemoteCode, receivedBit: bv8): Option<NewRemoteCode> {
    if state < 106 then
      (match ShiftIn(code.address, WORD32, receivedBit)
       case Some(v) => Some(code.(address := v))
       case None => None)
    else if state < 110 then
      (match receivedBit & 0x0F
       case 1 => Some(code.(groupBit := false))
       case 4 => Some(code.(groupBit := true))
       case _ => None)
    else if state < 114 then
      (match receivedBit & 0x0F
       case 1 => Some(code.(switchType := Off))
       case 4 => Some(code.(switchType := On))
       case 0 => Some(code.(switchType := Dim))
       case _ => None)
    else if state < 130 then
      (match ShiftIn(code.unit, 256, receivedBit)
       case Some(v) => Some(code.(unit := v))
       case None => None)
    else if state < 146 then
      (match ShiftIn(code.dimLevel, 256, receivedBit)
       case Some(v) => Some(code.(dimLevel := v))
       case None => None)
    else Some(code)
  }

  /** What a stop pulse does: count the repeat, and call back when there are enough. */
  function Accept(d: Decoder, minRepeats: nat, code: NewRemoteCode): (Decoder, Option<NewRemoteCode>) {
    var differs := !SameFields(code, d.previous);
    var repeats := ((if differs then 0 else d.repeats) + 1) % 256;
    var d' := d.(code := code, previous := if differs then code else d.previous, repeats := repeats);
    if repeats >= minRepeats then (Lost(d'), Some(code)) else (d'.(state := 0), None)
  }

  /** A part in the middle of a telegram, or the last one of a symbol. */
  function FeedShortOrLong(d: Decoder): Decoder {
    if d.state > 0 && d.state % 4 == 1 then
      match SymbolEnd(d.state, d.code, d.receivedBit)
      case Some(code) => Advance(d.(code := code))
      case None => Lost(d)
    else Advance(d)
  }

  /** A pulse that is neither short nor long: a stop pulse where one is due, else an error. */
  function FeedStop(d: Decoder, minRepeats: nat, duration: nat): (Decoder, Option<NewRemoteCode>) {
    var p := d.code.period;
    if 20 * p % WORD16 <= duration <= 80 * p % WORD16 && d.receivedBit & 0x02 == 0 && (d.state == 147 || d.state == 131) then
      if d.state == 131 then Accept(d, minRepeats, d.code)
      else if d.code.switchType == On then Accept(d, minRepeats, d.code.(switchType := OnWithDim))
      else (Lost(d), None)
    else (Lost(d), None)
  }

  /** What one pulse of length `duration` does to the decoder, and the code it calls back with, if any. */
  function Feed(d: Decoder, minRepeats: nat, duration: nat): (Decoder, Option<NewRemoteCode>) {
    var p := d.code.period;
    if d.state == -1 then
      (if duration > 4800 then Synchronised(d, duration) else d, None)
    else if d.state == 0 then
      (if duration > d.max1Period then Lost(d)
       else Advance(d.(code := d.code.(address := 0, unit := 0, dimLevel := 0))), None)
    else if d.state == 1 then
      (if duration < 7 * p % WORD16 || duration > 15 * p % WORD16 then Lost(d) else Advance(d), None)
    else if d.state < 148 then
      if duration <= d.max1Period || d.min5Period <= duration <= d.max5Period then
        (FeedShortOrLong(d.(receivedBit := ShiftedBit(d.receivedBit, d.max1Period < duration))), None)
      else FeedStop(d.(receivedBit := d.receivedBit << 1), minRepeats, duration)
    else (Advance(d), None)
  }

  /** Feeding a list of pulses: the final decoder and the callbacks made. */
  function Run(d: Decoder, minRepeats: nat, ds: seq<nat>): (Decoder, seq<NewRemoteCode>)
    decreases |ds|
  {
    if ds == [] then (d, [])
    else
      var (d1, c) := Feed(d, minRepeats, ds[0]);
      var (d2, cs) := Run(d1, minRepeats, ds[1..]);
      (d2, (if c.Some? then [c.value] else []) + cs)
  }

  lemma {:induction false} RunConcat(d: Decoder, m: nat, ds: seq<nat>, es: seq<nat>)
    ensures Run(d, m, ds + es).0 == Run(Run(d, m, ds).0, m, es).0
    ensures Run(d, m, ds + es).1 == Run(d, m, ds).1 + Run(Run(d, m, ds).0, m, es).1
    decreases |ds|
  {
    hide Feed;
    if ds == [] {
      assert ds + es == es;
    } else {
      var d1 := Feed(d, m, ds[0]).0;
      assert (ds + es)[0] == ds[0] && (ds + es)[1..] == ds[1..] + es;
      RunConcat(d1, m, ds[1..], es);
    }
  }

  lemma RunSnoc(d: Decoder, m: nat, ds: seq<nat>, x: nat)
    ensures Run(d, m, ds + [x]).0 == Feed(Run(d, m, ds).0, m, x).0
    ensures Run(d, m, ds + [x]).1 == Run(d, m, ds).1 + (match Feed(Run(d, m, ds).0, m, x).1 case Some(c) => [c] case None => [])
  {
    hide Feed;
    RunConcat(d, m, ds, [x]);
    var e := Run(d, m, ds).0;
    assert Run(e, m, [x]).0 == Feed(e, m, x).0;
  }

  // ---- a synchronised decoder reads the grammar ----

  /** Thresholds as the last synchronisation set them. */
  predicate Tuned(d: Decoder, p: nat) {
    && 120 <= p <= 1638 && d.code.period == p
    && d.min1Period == p * 3 / 10 && d.max1Period == p * 3 && d.min5Period == p * 3 && d.max5Period == p * 8
  }

  /** The last symbol boundary within the first `n` pulses of a telegram. */
  function Boundary(n: nat): nat {
    if n < 2 then 2 else n - (n - 2) % 4
  }

  lemma BoundaryStep(n: nat)
    ensures n >= 2 && n % 4 == 1 ==> n >= 5 && Boundary(n) == n - 3 && Boundary(n + 1) == n + 1
    ensures n < 2 || n % 4 != 1 ==> Boundary(n + 1) == Boundary(n)
    ensures n >= 2 ==> Boundary(n) % 4 == 2 && Boundary(n) <= n < Boundary(n) + 4
  {
    if n >= 2 {
      var q, r := (n - 2) / 4, (n - 2) % 4;
      assert n - 2 == 4 * q + r;
      Modulo4(q, 2);
      if r == 0 {
        Modulo4(q, 1);
        Modulo4(q, 2);
      } else if r == 1 {
        Modulo4(q, 2);
        Modulo4(q, 3);
      } else if r == 2 {
        Modulo4(q, 3);
        Modulo4(q + 1, 0);
      } else {
        Modulo4(q + 1, 0);
        Modulo4(q + 1, 1);
      }
    }
  }

  lemma Modulo4(q: nat, r: nat)
    requires r < 4
    ensures (4 * q + r) % 4 == r
  {
  }

  function Cut(e: nat, from: nat, to: nat): nat {
    if e > to then to else e
  }

  /** The pulses of `ds` between `from` and `to` spell `v`, as far as the boundary `e`. */
  predicate WordSoFar(p: nat, ds: seq<nat>, e: nat, from: nat, to: nat, v: nat) {
    if e <= from then v == 0
    else from <= Cut(e, from, to) <= |ds| && Spelled(p, ds[from..Cut(e, from, to)], v)
  }

  predicate Parts(p: nat, ds: seq<nat>) {
    forall i | 2 <= i < |ds| :: Part(p, ds[i])
  }

  /** The parts of the unfinished symbol, as the decoder has them in the low bits of `receivedBit`. */
  predicate Pending(p: nat, ds: seq<nat>, receivedBit: bv8) {
    var n := |ds|;
    var r := n - Boundary(n);
    n > 2 ==>
      && (r >= 1 ==> (receivedBit & 0x01 != 0) == Long(p, ds[n - 1]))
      && (r >= 2 ==> (receivedBit & 0x02 != 0) == Long(p, ds[n - 2]))
      && (r >= 3 ==> (receivedBit & 0x04 != 0) == Long(p, ds[n - 3]))
  }

  /** The code holds what the symbols up to the boundary `e` spell. */
  predicate Fields(p: nat, ds: seq<nat>, e: nat, code: NewRemoteCode) {
    && WordSoFar(p, ds, e, 2, 106, code.address)
    && (e >= 110 ==> |ds| >= 110 && IsBit(p, ds[106..110], code.groupBit))
    && (e >= 114 ==> |ds| >= 114 && IsSwitch(p, ds[110..114], code.switchType))
    && WordSoFar(p, ds, e, 114, 130, code.unit)
    && WordSoFar(p, ds, e, 130, 146, code.dimLevel)
  }

  predicate Beginning(p: nat, ds: seq<nat>) {
    (|ds| > 0 ==> Short(p, ds[0])) && (|ds| > 1 ==> StartLow(p, ds[1]))
  }

  /** The decoder has read `ds` since the telegram began, all of it a possible beginning of a telegram. */
  predicate Tracks(d: Decoder, p: nat, ds: seq<nat>) {
    && Tuned(d, p) && d.state == |ds| <= 148
    && Beginning(p, ds)
    && (|ds| > 0 ==> Fields(p, ds, Boundary(|ds|), d.code))
    && Parts(p, ds) && Pending(p, ds, d.receivedBit)
  }

  lemma WordKept(p: nat, ds: seq<nat>, x: nat, e: nat, from: nat, to: nat, v: nat)
    requires WordSoFar(p, ds, e, from, to, v)
    ensures WordSoFar(p, ds + [x], e, from, to, v)
  {
    if e > from {
      assert (ds + [x])[from..Cut(e, from, to)] == ds[from..Cut(e, from, to)];
    }
  }

  lemma WordGrows(p: nat, ds: seq<nat>, e: nat, from: nat, to: nat, v: nat, b: bool)
    requires from <= e && e + 4 <= to && e + 4 <= |ds|
    requires WordSoFar(p, ds, e, from, to, v) && IsBit(p, ds[e..e + 4], b)
    ensures WordSoFar(p, ds, e + 4, from, to, 2 * v + Bit(b))
  {
    assert e == from ==> ds[from..e] == [];
    SpelledSnoc(p, ds[from..e], v, ds[e..e + 4], b);
    assert ds[from..e] + ds[e..e + 4] == ds[from..e + 4];
  }

  lemma ShiftedBitEffect(receivedBit: bv8, long: bool)
    ensures var r := ShiftedBit(receivedBit, long);
            && (r & 0x01 != 0) == long
            && (r & 0x02 != 0) == (receivedBit & 0x01 != 0)
            && (r & 0x04 != 0) == (receivedBit & 0x02 != 0)
            && (r & 0x08 != 0) == (receivedBit & 0x04 != 0)
  {
  }

  lemma LowNibble(r: bv8)
    ensures r & 0x0F == 0x01 <==> r & 0x08 == 0 && r & 0x04 == 0 && r & 0x02 == 0 && r & 0x01 != 0
    ensures r & 0x0F == 0x04 <==> r & 0x08 == 0 && r & 0x04 != 0 && r & 0x02 == 0 && r & 0x01 == 0
    ensures r & 0x0F == 0x00 <==> r & 0x08 == 0 && r & 0x04 == 0 && r & 0x02 == 0 && r & 0x01 == 0
  {
  }

  /** What the low bits of `receivedBit` say once the fourth part `x` of a symbol is in. */
  lemma SymbolFlags(p: nat, ds: seq<nat>, receivedBit: bv8, x: nat)
    requires Parts(p, ds) && Pending(p, ds, receivedBit)
    requires 5 <= |ds| && |ds| % 4 == 1 && Part(p, x)
    ensures Spells(p, (ds + [x])[|ds| - 3..], ShiftedBit(receivedBit, 3 * p < x))
  {
    var q := (ds + [x])[|ds| - 3..];
    var n := |ds|;
    BoundaryStep(n);
    assert q == [ds[n - 3], ds[n - 2], ds[n - 1], x];
    ShiftedBitEffect(receivedBit, 3 * p < x);
    LowNibble(ShiftedBit(receivedBit, 3 * p < x));
  }

  lemma PartsGrow(p: nat, ds: seq<nat>, receivedBit: bv8, x: nat)
    requires Parts(p, ds) && Pending(p, ds, receivedBit) && |ds| >= 2 && Part(p, x)
    ensures Parts(p, ds + [x])
    ensures Pending(p, ds + [x], ShiftedBit(receivedBit, 3 * p < x))
  {
    BoundaryStep(|ds|);
    ShiftedBitEffect(receivedBit, 3 * p < x);
  }

  lemma FieldsKept(p: nat, ds: seq<nat>, x: nat, e: nat, code: NewRemoteCode)
    requires Fields(p, ds, e, code)
    ensures Fields(p, ds + [x], e, code)
  {
    WordKept(p, ds, x, e, 2, 106, code.address);
    WordKept(p, ds, x, e, 114, 130, code.unit);
    WordKept(p, ds, x, e, 130, 146, code.dimLevel);
    assert e >= 110 ==> (ds + [x])[106..110] == ds[106..110];
    assert e >= 114 ==> (ds + [x])[110..114] == ds[110..114];
  }

  /** Only a stop pulse touches the repeat count. */
  predicate Kept(d: Decoder, d': Decoder) {
    d'.previous == d.previous && d'.repeats == d.repeats
  }

  /** A short or long pulse shifts a part in, and ends a symbol when the state is 1 modulo 4. */
  lemma FeedPart(d: Decoder, m: nat, p: nat, x: nat)
    requires Tuned(d, p) && 2 <= d.state < 148 && Part(p, x)
    ensures var d' := d.(receivedBit := ShiftedBit(d.receivedBit, 3 * p < x));
            Feed(d, m, x) ==
            if d.state % 4 != 1 then (d'.(state := d.state + 1), None)
            else match SymbolEnd(d.state, d.code, d'.receivedBit)
                 case Some(code) => (d'.(state := d.state + 1, code := code), None)
                 case None => (d'.(state := -1), None)
  {
  }

  /** A part that does not end a symbol. */
  lemma TracksMidSymbol(d: Decoder, m: nat, p: nat, ds: seq<nat>, x: nat)
    requires Tracks(d, p, ds) && 2 <= |ds| < 148 && |ds| % 4 != 1 && Part(p, x)
    ensures Feed(d, m, x).1.None? && Tracks(Feed(d, m, x).0, p, ds + [x]) && Kept(d, Feed(d, m, x).0)
  {
    hide Feed, AllBits, WordOf;
    FeedPart(d, m, p, x);
    BoundaryStep(|ds|);
    PartsGrow(p, ds, d.receivedBit, x);
    FieldsKept(p, ds, x, Boundary(|ds|), d.code);
  }

  /** May the symbol `q` start at pulse number `e` of a telegram? */
  predicate SymbolAllowed(p: nat, e: nat, q: seq<nat>) {
    IsBit(p, q, false) || IsBit(p, q, true) || (e == 110 && IsDimSymbol(p, q))
  }

  /** The low four bits of `r` say which symbol `q` is, if any. */
  predicate Spells(p: nat, q: seq<nat>, r: bv8) {
    && (r & 0x0F == 0x01 <==> IsBit(p, q, false))
    && (r & 0x0F == 0x04 <==> IsBit(p, q, true))
    && (r & 0x0F == 0x00 <==> IsDimSymbol(p, q))
  }

  lemma GrowAddress(p: nat, ds: seq<nat>, e: nat, code: NewRemoteCode, b: bool)
    requires 2 <= e <= 102 && e + 4 <= |ds|
    requires Fields(p, ds, e, code) && IsBit(p, ds[e..e + 4], b)
    ensures Fields(p, ds, e + 4, code.(address := 2 * code.address + Bit(b)))
  {
    hide AllBits, WordOf, Spelled, IsBit, IsSwitch;
    WordGrows(p, ds, e, 2, 106, code.address, b);
  }

  lemma GrowUnit(p: nat, ds: seq<nat>, e: nat, code: NewRemoteCode, b: bool)
    requires 114 <= e <= 126 && e + 4 <= |ds|
    requires Fields(p, ds, e, code) && IsBit(p, ds[e..e + 4], b)
    ensures Fields(p, ds, e + 4, code.(unit := 2 * code.unit + Bit(b)))
  {
    hide AllBits, WordOf, Spelled, IsBit, IsSwitch;
    WordGrows(p, ds, e, 114, 130, code.unit, b);
  }

  lemma GrowDim(p: nat, ds: seq<nat>, e: nat, code: NewRemoteCode, b: bool)
    requires 130 <= e <= 142 && e + 4 <= |ds|
    requires Fields(p, ds, e, code) && IsBit(p, ds[e..e + 4], b)
    ensures Fields(p, ds, e + 4, code.(dimLevel := 2 * code.dimLevel + Bit(b)))
  {
    hide AllBits, WordOf, Spelled, IsBit, IsSwitch;
    WordGrows(p, ds, e, 130, 146, code.dimLevel, b);
  }

  /** The code with the symbol `q`, which starts at pulse `e`, taken in. */
  function WithSymbol(p: nat, e: nat, q: seq<nat>, code: NewRemoteCode): NewRemoteCode {
    var b := IsBit(p, q, true);
    if e < 106 then code.(address := 2 * code.address + Bit(b))
    else if e < 110 then code.(groupBit := b)
    else if e < 114 then code.(switchType := if b then On else if IsDimSymbol(p, q) then Dim else Off)
    else if e < 130 then code.(unit := 2 * code.unit + Bit(b))
    else code.(dimLevel := 2 * code.dimLevel + Bit(b))
  }

  lemma FieldOf(e: nat)
    requires 2 <= e < 146 && e % 4 == 2
    ensures e <= 102 || e == 106 || e == 110 || 114 <= e <= 126 || 130 <= e <= 142
  {
  }

  lemma TakeSymbol(p: nat, ds: seq<nat>, e: nat, code: NewRemoteCode)
    requires e <= 102 || e == 106 || e == 110 || 114 <= e <= 126 || 130 <= e <= 142
    requires 2 <= e && e + 4 <= |ds| && Fields(p, ds, e, code) && SymbolAllowed(p, e, ds[e..e + 4])
    ensures Fields(p, ds, e + 4, WithSymbol(p, e, ds[e..e + 4], code))
  {
    hide AllBits, WordOf;
    var b := IsBit(p, ds[e..e + 4], true);
    if e <= 102 {
      GrowAddress(p, ds, e, code, b);
    } else if 114 <= e <= 126 {
      GrowUnit(p, ds, e, code, b);
    } else if 130 <= e {
      GrowDim(p, ds, e, code, b);
    }
  }

  lemma FieldBounds(p: nat, ds: seq<nat>, e: nat, code: NewRemoteCode)
    requires Fields(p, ds, e, code)
    ensures code.address < 0x400_0000 && code.unit < 16 && code.dimLevel < 16
  {
    SmallPowers();
    WordSoFarBound(p, ds, e, 2, 26, code.address);
    WordSoFarBound(p, ds, e, 114, 4, code.unit);
    WordSoFarBound(p, ds, e, 130, 4, code.dimLevel);
  }

  lemma WordSoFarBound(p: nat, ds: seq<nat>, e: nat, from: nat, n: nat, v: nat)
    requires WordSoFar(p, ds, e, from, from + 4 * n, v)
    ensures v < Pow2(n)
  {
    Pow2Monotone(0, n);
    if e > from {
      var word := ds[from..Cut(e, from, from + 4 * n)];
      BitsLength(p, word);
      WordBound(p, word, |word| / 4);
      Pow2Monotone(|word| / 4, n);
    }
  }

  lemma SymbolEndSpells(p: nat, e: nat, q: seq<nat>, code: NewRemoteCode, r: bv8)
    requires Spells(p, q, r) && 2 <= e < 146 && e % 4 == 2
    requires code.address < 0x400_0000 && code.unit < 16 && code.dimLevel < 16
    ensures SymbolEnd(e + 3, code, r) == if SymbolAllowed(p, e, q) then Some(WithSymbol(p, e, q, code)) else None
  {
  }

  lemma TracksSymbolEnd(d: Decoder, m: nat, p: nat, ds: seq<nat>, x: nat)
    requires Tracks(d, p, ds) && 5 <= |ds| < 148 && |ds| % 4 == 1 && Part(p, x)
    ensures Feed(d, m, x).1.None?
    ensures Kept(d, Feed(d, m, x).0)
    ensures if SymbolAllowed(p, |ds| - 3, (ds + [x])[|ds| - 3..]) then Tracks(Feed(d, m, x).0, p, ds + [x])
            else Feed(d, m, x).0.state == -1
  {
    hide Feed, AllBits, WordOf, SymbolEnd, SymbolAllowed;
    var e, all := |ds| - 3, ds + [x];
    var q := all[e..];
    BoundaryStep(|ds|);
    assert all[e..e + 4] == q;
    FeedPart(d, m, p, x);
    SymbolFlags(p, ds, d.receivedBit, x);
    FieldBounds(p, ds, e, d.code);
    SymbolEndSpells(p, e, q, d.code, ShiftedBit(d.receivedBit, 3 * p < x));
    if SymbolAllowed(p, e, q) {
      PartsGrow(p, ds, d.receivedBit, x);
      FieldsKept(p, ds, x, e, d.code);
      FieldOf(e);
      TakeSymbol(p, all, e, d.code);
    }
  }

  lemma TracksBeginning(d: Decoder, m: nat, p: nat, ds: seq<nat>, x: nat)
    requires Tracks(d, p, ds) && |ds| < 2
    ensures Feed(d, m, x).1.None?
    ensures Kept(d, Feed(d, m, x).0)
    ensures if Beginning(p, ds + [x]) then Tracks(Feed(d, m, x).0, p, ds + [x]) else Feed(d, m, x).0.state == -1
  {
    if ds == [] {
      FirstPulse(d, m, p, x);
      assert ds + [x] == [x];
    } else {
      SecondPulse(d, m, p, ds[0], x);
      assert ds == [ds[0]] && ds + [x] == [ds[0], x];
    }
  }

  lemma FirstPulse(d: Decoder, m: nat, p: nat, x: nat)
    requires Tracks(d, p, [])
    ensures var r := Feed(d, m, x);
            r.1.None? && Kept(d, r.0) && if Short(p, x) then Tracks(r.0, p, [x]) else r.0.state == -1
  {
  }

  lemma SecondPulse(d: Decoder, m: nat, p: nat, y: nat, x: nat)
    requires Tracks(d, p, [y])
    ensures var r := Feed(d, m, x);
            r.1.None? && Kept(d, r.0) && if StartLow(p, x) then Tracks(r.0, p, [y, x]) else r.0.state == -1
  {
  }

  /** The code a stop pulse in the decoder's state completes. */
  function CompletedCode(d: Decoder): NewRemoteCode {
    if d.state == 147 then d.code.(switchType := OnWithDim) else d.code
  }

  /** A pulse that is neither short nor long is a stop pulse or an error. */
  lemma FeedOther(d: Decoder, m: nat, p: nat, x: nat)
    requires Tuned(d, p) && 2 <= d.state < 148 && !Part(p, x)
    ensures var d' := d.(receivedBit := d.receivedBit << 1);
            var due := d.state == 131 || (d.state == 147 && d.code.switchType == On);
            Feed(d, m, x) ==
            if due && StopLow(p, x) && d.receivedBit & 0x01 == 0 then Accept(d', m, CompletedCode(d))
            else (Lost(d'), None)
  {
    SecondBit(d.receivedBit);
  }

  /** A pulse that is neither short nor long ends the telegram: as its stop pulse if there is one due, else in failure. */
  lemma TracksStop(d: Decoder, m: nat, p: nat, ds: seq<nat>, x: nat)
    requires Tracks(d, p, ds) && 2 <= |ds| < 148 && !Part(p, x)
    ensures var d' := d.(receivedBit := d.receivedBit << 1);
            if Telegram(p, ds + [x], CompletedCode(d)) then Feed(d, m, x) == Accept(d', m, CompletedCode(d))
            else Feed(d, m, x) == (Lost(d'), None)
  {
    var n := |ds|;
    FeedOther(d, m, p, x);
    BoundaryStep(n);
    if n == 131 || n == 147 {
      assert (d.receivedBit & 0x01 != 0) == Long(p, ds[n - 1]);
      assert Part(p, ds[n - 1]);
      StopCompletes(p, ds, x, d.code);
    }
  }

  lemma SecondBit(r: bv8)
    ensures (r << 1) & 0x02 == 0 <==> r & 0x01 == 0
  {
  }

  lemma StopCompletes(p: nat, ds: seq<nat>, x: nat, code: NewRemoteCode)
    requires Beginning(p, ds) && Fields(p, ds, Boundary(|ds|), code) && Parts(p, ds)
    requires |ds| == 131 || |ds| == 147
    ensures var all := ds + [x];
            && (|ds| == 131 ==> (Telegram(p, all, code) <==> Short(p, ds[130]) && StopLow(p, x)))
            && (|ds| == 147 ==> (Telegram(p, all, code.(switchType := OnWithDim)) <==>
                                 code.switchType == On && Short(p, ds[146]) && StopLow(p, x)))
  {
    hide AllBits, WordOf;
    var all := ds + [x];
    assert all[0] == ds[0] && all[1] == ds[1];
    assert all[2..106] == ds[2..106] && all[106..110] == ds[106..110] && all[110..114] == ds[110..114] && all[114..130] == ds[114..130];
    assert |ds| == 147 ==> all[130..146] == ds[130..146];
  }

  /** May a telegram that has begun with `ds` go on, without ending, with the pulse `x`? */
  predicate Continues(p: nat, ds: seq<nat>, x: nat) {
    if |ds| < 2 then Beginning(p, ds + [x])
    else Part(p, x) && (5 <= |ds| < 146 && |ds| % 4 == 1 ==> SymbolAllowed(p, |ds| - 3, (ds + [x])[|ds| - 3..]))
  }

  /** One pulse on a synchronised decoder: it continues the telegram, completes it, or loses it. */
  lemma FeedStep(d: Decoder, m: nat, p: nat, ds: seq<nat>, x: nat)
    requires Tracks(d, p, ds) && |ds| < 148
    ensures -1 <= Feed(d, m, x).0.state <= 148
    ensures var r := Feed(d, m, x);
            if Continues(p, ds, x) then r.1.None? && Tracks(r.0, p, ds + [x]) && Kept(d, r.0)
            else if |ds| >= 2 && Telegram(p, ds + [x], CompletedCode(d)) then
              r == Accept(d.(receivedBit := d.receivedBit << 1), m, CompletedCode(d))
            else r.1.None? && r.0.state == -1
  {
    hide Feed, Tracks, Telegram, Kept, SymbolAllowed;
    TracksState(d, p, ds);
    StatesReached(Feed(d, m, x).0, p, ds + [x], d.(receivedBit := d.receivedBit << 1), m, CompletedCode(d));
    hide Accept;
    if |ds| < 2 {
      TracksBeginning(d, m, p, ds, x);
    } else if !Part(p, x) {
      TracksStop(d, m, p, ds, x);
    } else {
      PartIsNotStop(p, ds, x, CompletedCode(d));
      if |ds| % 4 == 1 {
        TracksSymbolEnd(d, m, p, ds, x);
      } else {
        TracksMidSymbol(d, m, p, ds, x);
      }
    }
  }

  lemma TracksState(d: Decoder, p: nat, ds: seq<nat>)
    requires Tracks(d, p, ds)
    ensures d.state == |ds| && Tuned(d, p)
  {
  }

  lemma StatesReached(e: Decoder, p: nat, ds: seq<nat>, d: Decoder, m: nat, c: NewRemoteCode)
    ensures Tracks(e, p, ds) ==> 0 <= e.state <= 148
    ensures -1 <= Accept(d, m, c).0.state <= 0
  {
  }

  lemma PartIsNotStop(p: nat, ds: seq<nat>, x: nat, c: NewRemoteCode)
    requires p > 0 && Part(p, x)
    ensures !Telegram(p, ds + [x], c)
  {
  }

  // ---- completeness: every telegram is accepted ----

  lemma WordPart(p: nat, ds: seq<nat>, from: nat, n: nat, v: nat, k: nat)
    requires from <= k < from + 4 * n <= |ds| && IsWord(p, ds[from..from + 4 * n], n, v)
    ensures Part(p, ds[k])
    ensures (k - from) % 4 == 3 ==> SymbolAllowed(p, 0, ds[k - 3..k + 1])
  {
    var j, r := (k - from) / 4, (k - from) % 4;
    WordBit(p, ds[from..from + 4 * n], n, j);
    assert from + 4 * j + r == k;
    Sequences.PartOfPart(ds, from, from + 4 * n, 4 * j, 4 * j + 4);
    assert ds[from + 4 * j..from + 4 * j + 4][r] == ds[k];
  }

  /** All but the last pulse of a telegram, or of what `sendDim` prints. */
  predicate Readable(p: nat, ds: seq<nat>, c: NewRemoteCode) {
    Body(p, ds, c) || DimBody(p, ds, c)
  }

  lemma BodyContinues(p: nat, ds: seq<nat>, c: NewRemoteCode, k: nat)
    requires Readable(p, ds, c) && k < |ds| - 1
    ensures Continues(p, ds[..k], ds[k])
  {
    hide AllBits, WordOf;
    assert k >= 3 ==> (ds[..k] + [ds[k]])[k - 3..] == ds[k - 3..k + 1];
    if 2 <= k < 106 {
      WordPart(p, ds, 2, 26, c.address, k);
    } else if 106 <= k < 110 {
      assert ds[106..110][k - 106] == ds[k];
    } else if 110 <= k < 114 {
      assert ds[110..114][k - 110] == ds[k];
    } else if 114 <= k < 130 {
      WordPart(p, ds, 114, 4, c.unit, k);
    } else if 130 <= k < |ds| - 2 {
      WordPart(p, ds, 130, 4, c.dimLevel, k);
    }
  }

  lemma RunNothing(d: Decoder, m: nat)
    ensures Run(d, m, []) == (d, [])
  {
  }

  lemma ReadsOne(e: Decoder, m: nat, p: nat, ds: seq<nat>, c: NewRemoteCode, k: nat)
    requires Readable(p, ds, c) && k < |ds| - 1 && k < 148 && Tracks(e, p, ds[..k])
    ensures Feed(e, m, ds[k]).1.None? && Tracks(Feed(e, m, ds[k]).0, p, ds[..k + 1]) && Kept(e, Feed(e, m, ds[k]).0)
  {
    hide *;
    BodyContinues(p, ds, c, k);
    FeedStep(e, m, p, ds[..k], ds[k]);
    assert ds[..k + 1] == ds[..k] + [ds[k]];
  }

  lemma ReadableLength(p: nat, ds: seq<nat>, c: NewRemoteCode)
    requires Readable(p, ds, c)
    ensures |ds| == 132 || |ds| == 148
  {
  }

  lemma {:induction false} ReadsBeginning(d: Decoder, m: nat, p: nat, ds: seq<nat>, c: NewRemoteCode, k: nat)
    requires Tracks(d, p, []) && Readable(p, ds, c) && k < |ds|
    ensures Tracks(Run(d, m, ds[..k]).0, p, ds[..k]) && Run(d, m, ds[..k]).1 == []
    ensures Kept(d, Run(d, m, ds[..k]).0)
  {
    hide *;
    if k == 0 {
      assert ds[..0] == [];
      RunNothing(d, m);
      KeptItself(d);
    } else {
      ReadableLength(p, ds, c);
      ReadsBeginning(d, m, p, ds, c, k - 1);
      var e := Run(d, m, ds[..k - 1]).0;
      ReadsOne(e, m, p, ds, c, k - 1);
      assert ds[..k] == ds[..k - 1] + [ds[k - 1]];
      RunSnoc(d, m, ds[..k - 1], ds[k - 1]);
      KeptThrough(d, e, Feed(e, m, ds[k - 1]).0);
    }
  }

  lemma KeptItself(d: Decoder)
    ensures Kept(d, d)
  {
  }

  lemma KeptThrough(d: Decoder, e: Decoder, f: Decoder)
    requires Kept(d, e) && Kept(e, f)
    ensures Kept(d, f)
  {
  }

  /** A synchronised decoder that is fed a telegram counts it, and calls back with its fields
      as soon as it has seen them `m` times in a row. */
  lemma TelegramAccepted(d: Decoder, m: nat, p: nat, ds: seq<nat>, c: NewRemoteCode)
    requires Tracks(d, p, []) && Telegram(p, ds, c) && c.period == p
    ensures var repeats := ((if SameFields(c, d.previous) then d.repeats else 0) + 1) % 256;
            var (e, calls) := Run(d, m, ds);
            && SameFields(e.previous, c) && e.repeats == repeats
            && (if repeats >= m then calls == [c] && e.state == -1
                else calls == [] && Tracks(e, p, []))
  {
    hide *;
    TelegramIsReadable(p, ds, c);
    var n := |ds| - 1;
    var e := Run(d, m, ds[..n]).0;
    ReadsBeginning(d, m, p, ds, c, n);
    TracksState(e, p, ds[..n]);
    CompletedIs(e, p, ds, c);
    assert ds == ds[..n] + [ds[n]];
    FeedStep(e, m, p, ds[..n], ds[n]);
    RunSnoc(d, m, ds[..n], ds[n]);
    AcceptedTracks(d, e, p, ds[..n], m, c);
  }

  lemma TelegramIsReadable(p: nat, ds: seq<nat>, c: NewRemoteCode)
    requires Telegram(p, ds, c)
    ensures Readable(p, ds, c) && 3 <= |ds| <= 148
  {
  }

  /** What accepting a telegram comes to. */
  lemma AcceptedTracks(d: Decoder, e: Decoder, p: nat, ds: seq<nat>, m: nat, c: NewRemoteCode)
    requires Tracks(e, p, ds) && Kept(d, e) && c.period == p
    ensures var repeats := ((if SameFields(c, d.previous) then d.repeats else 0) + 1) % 256;
            var (e', call) := Accept(e.(receivedBit := e.receivedBit << 1), m, c);
            && SameFields(e'.previous, c) && e'.repeats == repeats
            && (if repeats >= m then call == Some(c) && e'.state == -1 else call == None && Tracks(e', p, []))
  {
  }

  lemma CompletedIs(d: Decoder, p: nat, ds: seq<nat>, c: NewRemoteCode)
    requires Telegram(p, ds, c) && c.period == p
    requires Tracks(d, p, ds[..|ds| - 1])
    ensures Telegram(p, ds, CompletedCode(d)) && CompletedCode(d) == c
    ensures !Continues(p, ds[..|ds| - 1], ds[|ds| - 1])
  {
    var init := ds[..|ds| - 1];
    assert ds == init + [ds[|ds| - 1]];
    assert init[110..114] == ds[110..114];
    assert |ds| == 148 ==> d.code.switchType == On;
    StopCompletes(p, init, ds[|ds| - 1], d.code);
    TelegramUnique(p, ds, CompletedCode(d), c);
  }

  // ---- soundness: every callback is justified by telegrams ----

  function Concat(ts: seq<seq<nat>>): seq<nat> {
    if ts == [] then [] else Concat(ts[..|ts| - 1]) + ts[|ts| - 1]
  }

  function Needed(m: nat): nat {
    if m == 0 then 1 else m
  }

  /** What a decoder in the middle of reception has read since the pulse it synchronised on. */
  datatype History = History(telegrams: seq<seq<nat>>, codes: seq<NewRemoteCode>, current: seq<nat>)

  ghost predicate Explains(d: Decoder, m: nat, p: nat, h: History) {
    && Tracks(d, p, h.current)
    && AllTelegrams(p, h.telegrams, h.codes)
    && d.repeats <= |h.codes| && d.repeats < Needed(m)
    && forall i :: |h.codes| - d.repeats <= i < |h.codes| ==> SameFields(h.codes[i], d.previous)
  }

  ghost predicate AllTelegrams(p: nat, telegrams: seq<seq<nat>>, codes: seq<NewRemoteCode>) {
    |telegrams| == |codes| && forall i :: 0 <= i < |telegrams| ==> Telegram(p, telegrams[i], codes[i])
  }

  /** The pulses after number `k`, on which the decoder synchronised, are those of `h`. */
  ghost predicate Since(ds: seq<nat>, k: nat, h: History) {
    k < |ds| && ds[k] > 4800 && ds[k + 1..] == Concat(h.telegrams) + h.current
  }

  predicate Durations(ds: seq<nat>) {
    forall i | 0 <= i < |ds| :: ds[i] < WORD16
  }

  lemma {:induction false} RunExplained(d: Decoder, m: nat, ds: seq<nat>) returns (k: nat, h: History)
    requires d.state == -1 && m < 256 && Durations(ds)
    ensures -32768 <= Run(d, m, ds).0.state <= 32767
    ensures 0 <= Run(d, m, ds).0.state < 148 ==> Since(ds, k, h) && Explains(Run(d, m, ds).0, m, ds[k] / 40, h)
    decreases |ds|
  {
    hide Feed, Tracks, Telegram;
    k, h := 0, History([], [], []);
    if ds != [] {
      var n := |ds| - 1;
      var init, x := ds[..n], ds[n];
      assert ds == init + [x];
      k, h := RunExplained(d, m, init);
      RunSnoc(d, m, init, x);
      var e := Run(d, m, init).0;
      if 0 <= e.state < 148 {
        h := HistoryStep(e, m, init, x, k, h);
      } else {
        OutsideTelegram(e, m, x);
        k, h := n, History([], [], []);
      }
    }
  }

  /** Outside a telegram a decoder can only synchronise on `x`, or count past its states. */
  lemma OutsideTelegram(d: Decoder, m: nat, x: nat)
    requires x < WORD16 && (d.state < 0 || 148 <= d.state) && -32768 <= d.state <= 32767
    ensures var r := Feed(d, m, x);
            && r.1.None? && -32768 <= r.0.state <= 32767
            && (0 <= r.0.state < 148 ==> x > 4800 && r.0.repeats == 0 && Tracks(r.0, x / 40, []))
  {
  }

  /** `h` explains what the pulse `x` made of the decoder, and the callback it led to, if any. */
  ghost predicate ExplainsStep(r: (Decoder, Option<NewRemoteCode>), m: nat, ds: seq<nat>, x: nat, k: nat, h: History)
    requires k < |ds|
  {
    && -1 <= r.0.state <= 148
    && (0 <= r.0.state < 148 ==> Since(ds + [x], k, h) && Explains(r.0, m, ds[k] / 40, h))
    && (r.1.Some? ==>
          && h.current == [] && Since(ds + [x], k, h) && AllTelegrams(ds[k] / 40, h.telegrams, h.codes)
          && Justified(h.codes, m, r.1.value) && r.1.value.period == ds[k] / 40)
  }

  lemma HistoryStep(d: Decoder, m: nat, ds: seq<nat>, x: nat, k: nat, h: History) returns (h': History)
    requires m < 256 && Since(ds, k, h) && Explains(d, m, ds[k] / 40, h) && d.state < 148
    ensures ExplainsStep(Feed(d, m, x), m, ds, x, k, h')
  {
    var p := ds[k] / 40;
    TracksState(d, p, h.current);
    hide Feed, Tracks, Continues, Telegram, ExplainsStep, Accept, Kept;
    FeedStep(d, m, p, h.current, x);
    if Continues(p, h.current, x) {
      h' := h.(current := h.current + [x]);
      StepContinues(d, Feed(d, m, x), m, ds, x, k, h);
    } else if |h.current| >= 2 && Telegram(p, h.current + [x], CompletedCode(d)) {
      h' := WithTelegram(h, x, CompletedCode(d));
      StepCompletes(d, m, ds, x, k, h);
    } else {
      h' := h;
      StepLoses(Feed(d, m, x), m, ds, x, k, h);
    }
  }

  lemma StepLoses(r: (Decoder, Option<NewRemoteCode>), m: nat, ds: seq<nat>, x: nat, k: nat, h: History)
    requires k < |ds| && r.1.None? && r.0.state == -1
    ensures ExplainsStep(r, m, ds, x, k, h)
  {
  }

  lemma StepContinues(d: Decoder, r: (Decoder, Option<NewRemoteCode>), m: nat, ds: seq<nat>, x: nat, k: nat, h: History)
    requires Since(ds, k, h) && Explains(d, m, ds[k] / 40, h)
    requires r.1.None? && Tracks(r.0, ds[k] / 40, h.current + [x]) && Kept(d, r.0)
    ensures ExplainsStep(r, m, ds, x, k, h.(current := h.current + [x]))
  {
    TracksState(r.0, ds[k] / 40, h.current + [x]);
    TracksBound(r.0, ds[k] / 40, h.current + [x]);
    SinceCurrent(ds, k, h, x);
    hide Tracks, AllTelegrams, Since;
  }

  lemma TracksBound(d: Decoder, p: nat, ds: seq<nat>)
    requires Tracks(d, p, ds)
    ensures |ds| <= 148
  {
  }

  lemma StepCompletes(d: Decoder, m: nat, ds: seq<nat>, x: nat, k: nat, h: History)
    requires m < 256 && Since(ds, k, h) && Explains(d, m, ds[k] / 40, h)
    requires Telegram(ds[k] / 40, h.current + [x], CompletedCode(d))
    ensures ExplainsStep(Accept(d.(receivedBit := d.receivedBit << 1), m, CompletedCode(d)), m, ds, x, k,
                         WithTelegram(h, x, CompletedCode(d)))
  {
    TracksState(d, ds[k] / 40, h.current);
    hide Tracks, Telegram, Accept, Since, AllTelegrams;
    SinceTelegram(ds, k, h, x, CompletedCode(d));
    AcceptExplained(d.(receivedBit := d.receivedBit << 1), m, ds[k] / 40, h, x, CompletedCode(d));
  }

  function WithTelegram(h: History, x: nat, c: NewRemoteCode): History {
    History(h.telegrams + [h.current + [x]], h.codes + [c], [])
  }

  lemma SinceCurrent(ds: seq<nat>, k: nat, h: History, x: nat)
    requires Since(ds, k, h)
    ensures Since(ds + [x], k, h.(current := h.current + [x])) && (ds + [x])[k] == ds[k]
  {
    assert (ds + [x])[k + 1..] == ds[k + 1..] + [x];
    assert ds[k + 1..] + [x] == Concat(h.telegrams) + (h.current + [x]);
  }

  lemma SinceTelegram(ds: seq<nat>, k: nat, h: History, x: nat, c: NewRemoteCode)
    requires Since(ds, k, h)
    ensures Since(ds + [x], k, WithTelegram(h, x, c)) && (ds + [x])[k] == ds[k]
  {
    var h' := WithTelegram(h, x, c);
    assert h'.telegrams[..|h.telegrams|] == h.telegrams;
    assert (ds + [x])[k + 1..] == Concat(h.telegrams) + (h.current + [x]);
    assert Concat(h'.telegrams) == Concat(h.telegrams) + (h.current + [x]);
  }

  /** A completed telegram keeps the repeat count honest, and a callback happens only when it has reached `m`. */
  lemma AcceptExplained(d: Decoder, m: nat, p: nat, h: History, x: nat, c: NewRemoteCode)
    requires m < 256 && Tuned(d, p) && c.period == p
    requires AllTelegrams(p, h.telegrams, h.codes) && Telegram(p, h.current + [x], c)
    requires d.repeats <= |h.codes| && d.repeats < Needed(m)
    requires forall i :: |h.codes| - d.repeats <= i < |h.codes| ==> SameFields(h.codes[i], d.previous)
    ensures var (d', call) := Accept(d, m, c);
            var h' := WithTelegram(h, x, c);
            && AllTelegrams(p, h'.telegrams, h'.codes)
            && (call.None? ==> d'.state == 0 && Explains(d', m, p, h'))
            && (call.Some? ==> d'.state == -1 && call.value == c && Justified(h'.codes, m, c))
  {
    hide Telegram;
    var repeats := (if SameFields(c, d.previous) then d.repeats else 0) + 1;
    assert repeats <= Needed(m) < 256 && repeats % 256 == repeats;
    RepeatsCounted(h.codes, d.repeats, d.previous, c);
    assert AllTelegrams(p, WithTelegram(h, x, c).telegrams, WithTelegram(h, x, c).codes);
  }

  lemma RepeatsCounted(codes: seq<NewRemoteCode>, repeats: nat, previous: NewRemoteCode, c: NewRemoteCode)
    requires repeats <= |codes|
    requires forall i :: |codes| - repeats <= i < |codes| ==> SameFields(codes[i], previous)
    ensures var repeats' := (if SameFields(c, previous) then repeats else 0) + 1;
            var codes' := codes + [c];
            forall i :: |codes'| - repeats' <= i < |codes'| ==> SameFields(codes'[i], c)
  {
  }

  /** The last `Needed(m)` telegrams encode the fields of `c`, which are in range. */
  ghost predicate Justified(codes: seq<NewRemoteCode>, m: nat, c: NewRemoteCode) {
    && |codes| >= Needed(m)
    && forall i :: |codes| - Needed(m) <= i < |codes| ==> SameFields(codes[i], c)
  }

  /** Receiver soundness: a callback is preceded, since the pulse the decoder synchronised on, by nothing but
      telegrams, of which the last max(1, minRepeats) all encode the fields delivered. */
  lemma CallbackSound(d: Decoder, m: nat, ds: seq<nat>, x: nat, c: NewRemoteCode) returns (k: nat, h: History)
    requires d.state == -1 && m < 256 && Durations(ds + [x])
    requires Feed(Run(d, m, ds).0, m, x).1 == Some(c)
    ensures k <= |ds| && (ds + [x])[k] > 4800 && (ds + [x])[k + 1..] == Concat(h.telegrams)
    ensures AllTelegrams(c.period, h.telegrams, h.codes) && c.period == (ds + [x])[k] / 40
    ensures var n := if m == 0 then 1 else m;
            && |h.codes| >= n
            && forall i :: |h.codes| - n <= i < |h.codes| ==>
                 && h.codes[i].address == c.address && h.codes[i].groupBit == c.groupBit && h.codes[i].unit == c.unit
                 && h.codes[i].switchType == c.switchType && h.codes[i].dimLevel == c.dimLevel
    ensures c.address < 0x400_0000 && c.unit < 16 && c.dimLevel < 16
  {
    assert forall i :: 0 <= i < |ds| ==> ds[i] == (ds + [x])[i];
    k, h := RunExplained(d, m, ds);
    h := HistoryStep(Run(d, m, ds).0, m, ds, x, k, h);
    var last := |h.codes| - 1;
    assert SameFields(h.codes[last], c);
    TelegramBounds(c.period, h.telegrams[last], h.codes[last]);
  }

  lemma TelegramBounds(p: nat, ds: seq<nat>, c: NewRemoteCode)
    requires Telegram(p, ds, c)
    ensures c.address < 0x400_0000 && c.unit < 16 && c.dimLevel < 16
  {
    SmallPowers();
    WordBound(p, ds[2..106], 26);
    WordBound(p, ds[114..130], 4);
    if |ds| == 148 {
      WordBound(p, ds[130..146], 4);
    }
  }

  // ---- a flaw: a telegram that runs on past its stop pulse deafens the receiver ----

  /** Once past state 147 the decoder ignores everything until its 16-bit state has wrapped. */
  lemma {:induction false} Deaf(d: Decoder, m: nat, ds: seq<nat>)
    requires 148 <= d.state && d.state + |ds| <= 32767
    ensures Run(d, m, ds) == (d.(state := d.state + |ds|), [])
    decreases |ds|
  {
    if ds != [] {
      assert Feed(d, m, ds[0]) == (d.(state := d.state + 1), None);
      Deaf(d.(state := d.state + 1), m, ds[1..]);
      assert [] + Run(d, m, ds).1 == [];
    }
  }

  /** It gets there exactly when the pulse due as a stop pulse after four dim bits is short or long instead. */
  lemma GoesDeaf(d: Decoder, m: nat, p: nat, ds: seq<nat>, x: nat)
    requires Tracks(d, p, ds) && |ds| < 148
    ensures Feed(d, m, x).0.state == 148 <==> |ds| == 147 && Part(p, x)
  {
    FeedStep(d, m, p, ds, x);
  }

  /** Its state then wraps: for 32620 pulses of any length nothing is received. */
  lemma DeafUntilWrap(d: Decoder, m: nat, ds: seq<nat>)
    requires d.state == 148 && |ds| == 32620
    ensures Run(d, m, ds) == (d.(state := -32768), [])
  {
    var init, x := ds[..32619], ds[32619];
    assert ds == init + [x];
    Deaf(d, m, init);
    RunSnoc(d, m, init, x);
    Wraps(d.(state := 32767), m, x);
  }

  lemma Wraps(d: Decoder, m: nat, x: nat)
    requires d.state == 32767
    ensures Feed(d, m, x) == (d.(state := -32768), None)
  {
  }

  /** From there it still counts parts, as if they were those of a telegram, but calls nobody; at the latest when they
      have brought it to -1 it listens again, and before that the first pulse that is no part makes it. */
  lemma {:induction false} HearsAgain(d: Decoder, m: nat, p: nat, ds: seq<nat>, x: nat)
    requires Tuned(d, p) && -32768 <= d.state < -1 && d.state + |ds| < -1
    requires (forall y :: y in ds ==> Part(p, y)) && !Part(p, x)
    ensures Run(d, m, ds).0.state == d.state + |ds| && Run(d, m, ds).1 == []
    ensures Run(d, m, ds + [x]).0.state == -1 && Run(d, m, ds + [x]).1 == []
    decreases |ds|
  {
    if ds == [] {
      assert [] + [x] == [x] && [x][1..] == [];
      NotAPart(d, m, p, x);
    } else {
      assert ds[0] in ds && forall y :: y in ds[1..] ==> y in ds;
      PartCounts(d, m, p, ds[0]);
      hide Feed, Tuned;
      assert (ds + [x])[1..] == ds[1..] + [x];
      HearsAgain(Feed(d, m, ds[0]).0, m, p, ds[1..], x);
    }
  }

  lemma PartCounts(d: Decoder, m: nat, p: nat, x: nat)
    requires Tuned(d, p) && -32768 <= d.state < -1 && Part(p, x)
    ensures var r := Feed(d, m, x); r.1 == None && r.0.state == d.state + 1 && Tuned(r.0, p)
  {
  }

  lemma NotAPart(d: Decoder, m: nat, p: nat, x: nat)
    requires Tuned(d, p) && -32768 <= d.state < -1 && !Part(p, x)
    ensures Feed(d, m, x).1 == None && Feed(d, m, x).0.state == -1
  {
  }

  /** It takes but a telegram with a dim level whose very last pulse is cut short, so that it is taken for a part. */
  lemma TelegramDeafens(d: Decoder, m: nat, p: nat, ds: seq<nat>, c: NewRemoteCode, x: nat)
    requires Tracks(d, p, []) && Readable(p, ds, c) && |ds| == 148 && Part(p, x)
    ensures var (e, calls) := Run(d, m, ds[..147] + [x]);
            e.state == 148 && calls == [] && Tuned(e, p)
  {
    hide *;
    ReadsBeginning(d, m, p, ds, c, 147);
    var e := Run(d, m, ds[..147]).0;
    LastPart(e, m, p, ds[..147], x);
    RunSnoc(d, m, ds[..147], x);
  }

  lemma LastPart(d: Decoder, m: nat, p: nat, ds: seq<nat>, x: nat)
    requires Tracks(d, p, ds) && |ds| == 147 && Part(p, x)
    ensures Feed(d, m, x).1 == None && Feed(d, m, x).0.state == 148 && Tuned(Feed(d, m, x).0, p)
  {
    hide Feed, Tracks;
    FeedStep(d, m, p, ds, x);
    TracksState(Feed(d, m, x).0, p, ds + [x]);
  }

  // ---- another one: what the sender's own dim function prints is not understood ----

  /** It is read to the end, and then refused, because the symbol before the dim level is not the one for "on". */
  lemma DimRefused(d: Decoder, m: nat, p: nat, ds: seq<nat>, c: NewRemoteCode)
    requires Tracks(d, p, []) && DimBody(p, ds, c) && !Part(p, ds[147])
    ensures Run(d, m, ds[..147]).0.state == 147
    ensures Run(d, m, ds).0.state == -1 && Run(d, m, ds).1 == []
  {
    assert Readable(p, ds, c);
    hide Feed, Run, Tracks, Telegram, DimBody, Readable;
    ReadsBeginning(d, m, p, ds, c, 147);
    var e := Run(d, m, ds[..147]).0;
    TracksState(e, p, ds[..147]);
    DimIsNoTelegram(p, ds, c, CompletedCode(e));
    assert ds == ds[..147] + [ds[147]];
    FeedStep(e, m, p, ds[..147], ds[147]);
    RunSnoc(d, m, ds[..147], ds[147]);
  }

  lemma DimIsNoTelegram(p: nat, ds: seq<nat>, c: NewRemoteCode, c': NewRemoteCode)
    requires DimBody(p, ds, c)
    ensures !Telegram(p, ds, c')
  {
    hide IsWord;
    assert IsDimSymbol(p, ds[110..114]);
  }
}
