/** The telegram format of the NewRemoteSwitch protocol, told apart from any parser:
    which lists of pulse lengths are telegrams, and what they encode. */
module NewRemoteGrammar {
  import opened Arithmetic

  datatype SwitchType = Off | On | Dim | OnWithDim

  datatype NewRemoteCode = NewRemoteCode(
    period: nat, address: nat, groupBit: bool, switchType: SwitchType, unit: nat, dimLevel: nat)


  /** The fields that two receptions of one telegram share. */
  predicate SameFields(c: NewRemoteCode, c': NewRemoteCode) {
    c.(period := 0) == c'.(period := 0)
  }

  // Pulse classes for a measured period `p`, in 16-bit arithmetic.

  predicate Short(p: nat, d: nat) {
    d <= 3 * p
  }

  predicate Long(p: nat, d: nat) {
    3 * p < d <= 8 * p
  }

  predicate StartLow(p: nat, d: nat) {
    7 * p <= d <= 15 * p
  }

  predicate StopLow(p: nat, d: nat) {
    20 * p <= d <= 80 * p % WORD16
  }

  predicate Part(p: nat, d: nat) {
    Short(p, d) || Long(p, d)
  }

  /** Four pulses that spell a 0 (short short short long) or a 1 (short long short short). */
  predicate IsBit(p: nat, q: seq<nat>, b: bool) {
    && |q| == 4 && Short(p, q[0]) && Short(p, q[2])
    && (if b then Long(p, q[1]) && Short(p, q[3]) else Short(p, q[1]) && Long(p, q[3]))
  }

  predicate IsDimSymbol(p: nat, q: seq<nat>) {
    |q| == 4 && forall i | 0 <= i < 4 :: Short(p, q[i])
  }

  predicate IsSwitch(p: nat, q: seq<nat>, t: SwitchType) {
    match t
    case Off => IsBit(p, q, false)
    case On => IsBit(p, q, true)
    case Dim => IsDimSymbol(p, q)
    case OnWithDim => false
  }

  predicate AllBits(p: nat, ds: seq<nat>)
    decreases |ds|
  {
    ds == [] ||
    (|ds| >= 4 && AllBits(p, ds[..|ds| - 4]) && (IsBit(p, ds[|ds| - 4..], false) || IsBit(p, ds[|ds| - 4..], true)))
  }

  /** The number a row of bits spells, most significant bit first. */
  function WordOf(p: nat, ds: seq<nat>): nat
    decreases |ds|
  {
    if |ds| < 4 then 0
    else 2 * WordOf(p, ds[..|ds| - 4]) + Bit(Long(p, ds[|ds| - 3]))
  }

  /** A row of bits that spells `v`. */
  predicate Spelled(p: nat, ds: seq<nat>, v: nat) {
    AllBits(p, ds) && v == WordOf(p, ds)
  }

  /** `n` bits, most significant first, that spell `v`. */
  predicate IsWord(p: nat, ds: seq<nat>, n: nat, v: nat) {
    |ds| == 4 * n && Spelled(p, ds, v)
  }

  /** All of a telegram but its very last pulse: start pulse, 26 address bits, group bit, switch symbol,
      4 unit bits, for "on with dim" 4 more dim bits, and the high half of the stop pulse. */
  predicate Body(p: nat, ds: seq<nat>, c: NewRemoteCode) {
    && (|ds| == 132 || |ds| == 148)
    && Short(p, ds[0]) && StartLow(p, ds[1])
    && IsWord(p, ds[2..106], 26, c.address)
    && IsBit(p, ds[106..110], c.groupBit)
    && IsWord(p, ds[114..130], 4, c.unit)
    && (if |ds| == 132 then IsSwitch(p, ds[110..114], c.switchType) && c.dimLevel == 0
        else IsSwitch(p, ds[110..114], On) && c.switchType == OnWithDim && IsWord(p, ds[130..146], 4, c.dimLevel))
    && Short(p, ds[|ds| - 2])
  }

  /** What `sendDim` prints, up to the same point: the dim symbol, and a dim level behind the unit. No parser takes it
      for a telegram: a dim level is only accepted with the symbol for "on". */
  predicate DimBody(p: nat, ds: seq<nat>, c: NewRemoteCode) {
    && |ds| == 148
    && Short(p, ds[0]) && StartLow(p, ds[1])
    && IsWord(p, ds[2..106], 26, c.address)
    && IsBit(p, ds[106..110], c.groupBit)
    && IsSwitch(p, ds[110..114], Dim) && c.switchType == Dim
    && IsWord(p, ds[114..130], 4, c.unit)
    && IsWord(p, ds[130..146], 4, c.dimLevel)
    && Short(p, ds[146])
  }

  predicate Telegram(p: nat, ds: seq<nat>, c: NewRemoteCode) {
    Body(p, ds, c) && StopLow(p, ds[|ds| - 1])
  }

  lemma SmallPowers()
    ensures Pow2(4) == 16 && Pow2(26) == 0x400_0000
  {
    assert Pow2(10) == 1024;
    assert Pow2(18) == 0x4_0000;
  }

  lemma {:induction false} WordBound(p: nat, ds: seq<nat>, n: nat)
    requires |ds| == 4 * n
    ensures WordOf(p, ds) < Pow2(n)
  {
    if n > 0 {
      WordBound(p, ds[..4 * (n - 1)], n - 1);
    }
  }

  /** Every group of four pulses inside a word is a bit. */
  lemma {:induction false} WordBit(p: nat, ds: seq<nat>, n: nat, j: nat)
    requires |ds| == 4 * n && AllBits(p, ds) && j < n
    ensures IsBit(p, ds[4 * j..4 * j + 4], true) || IsBit(p, ds[4 * j..4 * j + 4], false)
  {
    if j == n - 1 {
      assert ds[4 * j..4 * j + 4] == ds[4 * (n - 1)..];
    } else {
      var init := ds[..4 * (n - 1)];
      WordBit(p, init, n - 1, j);
      assert init[4 * j..4 * j + 4] == ds[4 * j..4 * j + 4];
    }
  }

  lemma SpelledSnoc(p: nat, ds: seq<nat>, v: nat, q: seq<nat>, b: bool)
    requires Spelled(p, ds, v) && IsBit(p, q, b)
    ensures Spelled(p, ds + q, 2 * v + Bit(b))
  {
    var all := ds + q;
    assert all[..|all| - 4] == ds && all[|all| - 4..] == q && all[|all| - 3] == q[1];
  }

  lemma {:induction false} BitsLength(p: nat, ds: seq<nat>)
    requires AllBits(p, ds)
    ensures |ds| % 4 == 0
    decreases |ds|
  {
    if ds != [] {
      BitsLength(p, ds[..|ds| - 4]);
    }
  }

  /** A telegram has one reading. */
  lemma TelegramUnique(p: nat, ds: seq<nat>, c: NewRemoteCode, c': NewRemoteCode)
    requires Telegram(p, ds, c) && Telegram(p, ds, c')
    ensures SameFields(c, c')
  {
  }
}
