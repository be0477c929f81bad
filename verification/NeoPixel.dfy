/** Brightness arithmetic of the NeoPixel strip, in the integers of the board. */
module NeoPixel {
  import opened Arithmetic

  /** The stored brightness is one more than asked for, modulo 256: 0 means no scaling. */
  function Limit(brightness: Byte): Byte {
    if brightness == 0 then 255 else brightness - 1
  }

  /** A colour value as stored. */
  function Scaled(v: Byte, brightness: Byte): Byte {
    if brightness == 0 then v else v as int * brightness as int / 256
  }

  lemma LimitIs(level: Byte)
    ensures Limit((level as int + 1) % 256) == level
  {
  }

  lemma LimitUnique(brightness: Byte)
    ensures (Limit(brightness) as int + 1) % 256 == brightness
  {
  }

  lemma ScaledBound(v: Byte, brightness: Byte)
    ensures Scaled(v, brightness) <= Limit(brightness)
  {
    if brightness != 0 {
      Monotone(v, 255, brightness);
      QuotientAtMost(v as int * brightness as int, 256, brightness - 1);
    }
  }

  /** A stored byte is what its colour comes to in proportion to the limit, rounded down. */
  lemma ScaledIs(v: Byte, brightness: Byte)
    ensures var got := Scaled(v, brightness) as int;
            256 * got <= v as int * (Limit(brightness) as int + 1) < 256 * got + 256
  {
    if brightness != 0 {
      Division(v as int * brightness as int, 256);
    }
  }

  lemma Monotone(a: nat, b: nat, k: nat)
    requires a <= b
    ensures a * k <= b * k && k * a <= k * b
  {
  }

  // ---- reading a colour back ----

  /** C's division: towards zero. */
  function Truncated(a: int, b: nat): int
    requires b > 0
  {
    if a >= 0 then a / b else -(-a / b)
  }

  /** What the left shift by 8 gives in an int of 16 bits, or in a wider one. */
  function ShiftedUp(c: Byte, wide: bool): int {
    var v := c as int * 256;
    if wide || v < 0x8000 then v else v - WORD16
  }

  /** A stored value scaled up again. */
  function Restored(c: Byte, brightness: Byte, wide: bool): Byte {
    if brightness == 0 then c else Truncated(ShiftedUp(c, wide), brightness) % 256
  }

  lemma Division(a: nat, b: nat)
    requires b > 0
    ensures b * (a / b) <= a < b * (a / b) + b
  {
  }

  lemma QuotientAtMost(a: nat, b: nat, q: nat)
    requires b > 0 && a < b * q + b
    ensures a / b <= q
  {
    Division(a, b);
    Further(b, q, a / b);
  }

  lemma QuotientAtLeast(a: nat, b: nat, q: nat)
    requires b > 0 && b * q <= a
    ensures q <= a / b
  {
    Division(a, b);
    Further(b, a / b, q);
  }

  /** Multiples of `b` are `b` apart. */
  lemma Further(b: nat, q: nat, q': nat)
    ensures q < q' ==> b * q + b <= b * q'
  {
    if q < q' {
      Monotone(q + 1, q', b);
      assert b * (q + 1) == b * q + b;
    }
  }

  /** Values within the limit scale up to a byte. */
  lemma WideQuotient(c: Byte, brightness: Byte)
    requires brightness != 0 && c <= Limit(brightness)
    ensures Restored(c, brightness, true) == c as int * 256 / brightness <= 255
  {
    assert c as int * 256 < brightness as int * 255 + brightness as int;
    hide Limit;
    QuotientAtMost(c as int * 256, brightness, 255);
    var q := c as int * 256 / brightness;
    assert ShiftedUp(c, true) == c as int * 256;
    SmallMod(q, 256);
  }

  /** And reading it back is the same the other way round, wherever it scales up. */
  lemma RestoredIs(c: Byte, brightness: Byte, wide: bool)
    requires c <= Limit(brightness) && ScalesUp(c, brightness, wide)
    ensures var got, limit := Restored(c, brightness, wide) as int, Limit(brightness) as int + 1;
            limit * got <= 256 * c as int < limit * got + limit
  {
    NarrowRestores(c, brightness);
    if brightness != 0 {
      WideQuotient(c, brightness);
      Division(c as int * 256, brightness);
    }
  }

  /** Up to 255 lost in the first division, up to `b` in the second. */
  lemma LostInDivisions(r: nat, b: nat, c: nat, got: nat)
    requires 256 * c <= r * b < 256 * c + 256 && b * got <= 256 * c < b * got + b
    ensures got <= r && b * (r - got) < 256 + b
  {
    Further(b, r, got);
    assert b * (r - got) == b * r - b * got;
  }

  /** The stored value scales up as with unlimited integers: in a wide int always, in one of 16 bits as `NarrowRestores`
      says. */
  predicate ScalesUp(c: Byte, brightness: Byte, wide: bool) {
    wide || brightness == 0 || c < 128 || brightness == 255
  }

  /** `got` is at most `v`, and less than 256 / brightness + 1 below it. */
  predicate Near(v: Byte, got: Byte, brightness: Byte) {
    got <= v && brightness as int * (v - got) < 256 + brightness as int
  }

  /** A colour comes back as at most what was set, and not far below. */
  lemma SetThenGet(r: Byte, brightness: Byte, wide: bool)
    requires ScalesUp(Scaled(r, brightness), brightness, wide)
    ensures var got := Restored(Scaled(r, brightness), brightness, wide);
            Near(r, got, brightness) && (brightness == 0 ==> got == r)
  {
    ScaledBound(r, brightness);
    hide Limit;
    NarrowRestores(Scaled(r, brightness), brightness);
    if brightness != 0 {
      var c := Scaled(r, brightness);
      WideQuotient(c, brightness);
      Division(r as int * brightness as int, 256);
      Division(c as int * 256, brightness);
      hide Restored, Scaled;
      LostInDivisions(r, brightness, c, c as int * 256 / brightness);
    }
  }

  /** Reading a stored value and setting it again lowers it by one at most. */
  lemma GetThenSet(c: Byte, brightness: Byte, wide: bool)
    requires c <= Limit(brightness) && ScalesUp(c, brightness, wide)
    ensures c as int - 1 <= Scaled(Restored(c, brightness, wide), brightness) <= c
  {
    NarrowRestores(c, brightness);
    if brightness != 0 {
      WideQuotient(c, brightness);
      Division(c as int * 256, brightness);
      hide Restored, Limit;
      ScaledAgain(c, brightness, c as int * 256 / brightness);
    }
  }

  lemma ScaledAgain(c: Byte, brightness: Byte, got: Byte)
    requires brightness != 0 && brightness as int * got as int <= 256 * c as int < brightness as int * got as int + brightness as int
    ensures c as int - 1 <= Scaled(got, brightness) <= c
  {
    var again := got as int * brightness as int;
    assert again == brightness as int * got as int;
    QuotientAtMost(again, 256, c);
    if c > 0 {
      QuotientAtLeast(again, 256, c - 1);
    }
  }

  /** The quotients of `256 * c` and of what is missing to 65536. */
  lemma TwoQuotients(b: nat, c: nat, t: nat, u: nat)
    requires 129 <= b <= 255 && 128 <= c < b
    requires b * t <= 256 * c < b * t + b && b * u <= 256 * (256 - c) < b * u + b
    ensures 1 <= u <= 254 && t <= 255
    ensures t + u == 256 <==> b == 255
    ensures t + u <= 508
  {
    Further(b, 255, t);
    Further(b, 254, u);
    assert b * t + b * u == b * (t + u);
    if b == 255 {
      assert t == c && u == 256 - c;
    } else {
      Further(b, t + u, 257);
    }
  }

  /** With an int of 16 bits the colour is the same exactly if the shift does not reach the sign, or the brightness is
      just below the maximum. */
  lemma NarrowRestores(c: Byte, brightness: Byte)
    requires c <= Limit(brightness)
    ensures Restored(c, brightness, false) == Restored(c, brightness, true) <==> ScalesUp(c, brightness, false)
  {
    if brightness != 0 && c >= 128 {
      WideQuotient(c, brightness);
      var t, u := c as int * 256 / brightness, (256 - c as int) * 256 / brightness;
      Division(c as int * 256, brightness);
      Division((256 - c as int) * 256, brightness);
      TwoQuotients(brightness, c, t, u);
      NegativeByte(c, brightness, u);
    }
  }

  /** The sign bit makes the quotient negative, and a byte of it. */
  lemma NegativeByte(c: Byte, brightness: Byte, u: nat)
    requires brightness != 0 && c >= 128 && u == (256 - c as int) * 256 / brightness && 1 <= u <= 254
    ensures Restored(c, brightness, false) == 256 - u
  {
    var a := (256 - c as int) * 256;
    assert ShiftedUp(c, false) == -a;
    assert Truncated(-a, brightness) == -(u as int);
    ByteOfNegative(u);
  }

  lemma ByteOfNegative(u: int)
    requires 1 <= u <= 255
    ensures (-u) % 256 == 256 - u
  {
  }

  // ---- changing the brightness ----

  function Scale(was: Byte, level: Byte): nat {
    if was == 0 then 0 else if level == 255 then 65535 / was else ((level + 1) * 256 - 1) / was
  }

  /** The product is taken in 16 bits. */
  function Rescaled(c: Byte, scale: nat): nat {
    c as int * scale % WORD16 / 256
  }

  function Top(level: Byte): nat {
    if level == 255 then 65535 else (level as int + 1) * 256 - 1
  }

  lemma ScaleBound(c: Byte, was: Byte, level: Byte)
    requires c <= was
    ensures c as int * Scale(was, level) <= Top(level)
  {
    if was != 0 {
      Division(Top(level), was);
      Monotone(c, was, Scale(was, level));
    }
  }

  /** For a value within the old limit the product does not wrap, and the result is within the new limit. */
  lemma RescaledBound(c: Byte, was: Byte, level: Byte)
    requires c <= was
    ensures c as int * Scale(was, level) < WORD16
    ensures Rescaled(c, Scale(was, level)) == c as int * Scale(was, level) / 256 <= level
  {
    hide Scale;
    ScaleBound(c, was, level);
    Within16(c as int * Scale(was, level), level);
  }

  lemma Within16(product: nat, level: Byte)
    requires product <= Top(level)
    ensures product < WORD16 && product % WORD16 / 256 == product / 256 <= level
  {
    assert product < 256 * level as int + 256;
    hide Top;
    SmallMod(product, WORD16);
    QuotientAtMost(product, 256, level);
  }

  /** What a change of brightness makes of a stored byte, without the factor that it goes through: it stays in proportion,
      less than two below, and a byte at the old limit is then at the new one. */
  lemma RescaledIsNear(c: Byte, was: Byte, level: Byte)
    requires c <= was
    ensures var n := Rescaled(c, Scale(was, level));
            && was as int * n <= c as int * (level as int + 1)
            && (was > 0 ==> c as int * (level as int + 1) < was as int * (n + 2))
            && (c == was > 0 ==> n == level)
            && (was == 0 ==> n == 0)
  {
    ScaleNear(was, level);
    hide Scale;
    RescaledBound(c, was, level);
    var s := Scale(was, level);
    if was > 0 {
      Division(c as int * s, 256);
      hide Rescaled;
      NearProduct(c, was, level as int + 1, s, Rescaled(c, s));
      if c == was {
        QuotientAtLeast(c as int * s, 256, level);
      }
    }
  }

  /** The factor is the largest one that keeps the old limit below the new one, counted in 256ths. */
  lemma ScaleNear(was: Byte, level: Byte)
    ensures was > 0 ==> was as int * Scale(was, level) < 256 * (level as int + 1) <= was as int * Scale(was, level) + was as int
    ensures was == 0 ==> Scale(was, level) == 0
  {
    if was > 0 {
      Division(Top(level), was);
    }
  }

  lemma NearProduct(c: nat, was: nat, up: nat, s: nat, n: nat)
    requires c <= was <= 255 && was > 0 && was * s < 256 * up <= was * s + was
    requires 256 * n <= c * s < 256 * n + 256
    ensures was * n <= c * up < was * (n + 2)
  {
    ScaleBoth(c, was, s, up);
    Monotone(256 * n, c * s, was);
    Monotone(c * s + 1, 256 * n + 256, was);
    Products(c, was, s, n);
    Monotone(c, 255, was);
    Between(c * (was * s), c * up, c * was, was, was * n);
  }

  lemma Products(c: nat, was: nat, s: nat, n: nat)
    ensures was * (256 * n) == 256 * (was * n) && was * (256 * n + 256) == 256 * (was * n) + 256 * was
    ensures was * (c * s) == c * (was * s) && was * (c * s + 1) == c * (was * s) + was
    ensures was * (n + 2) == was * n + 2 * was
  {
  }

  lemma Between(x: nat, y: nat, z: nat, w: nat, wn: nat)
    requires x <= 256 * y <= x + z && 256 * wn <= x && x + w <= 256 * wn + 256 * w && z <= 255 * w && w > 0
    ensures wn <= y < wn + 2 * w
  {
  }

  lemma ScaleBoth(c: nat, was: nat, s: nat, up: nat)
    requires was * s < 256 * up <= was * s + was
    ensures c * (was * s) <= 256 * (c * up) <= c * (was * s) + c * was
  {
    Monotone(was * s, 256 * up, c);
    Monotone(256 * up, was * s + was, c);
    assert c * (256 * up) == 256 * (c * up);
    assert c * (was * s + was) == c * (was * s) + c * was;
  }

  /** A byte `c` within the limit `was` has become `n`, within `level`: in proportion, less than two below; exactly so at
      the limit. */
  predicate KeepsProportion(c: Byte, was: Byte, level: Byte, n: nat) {
    if was == 0 then n == 0
    else
      && was as int * n <= c as int * (level as int + 1) < was as int * (n + 2)
      && (c == was ==> n == level)
  }

  lemma ProportionKept(c: Byte, was: Byte, level: Byte)
    requires c <= was
    ensures KeepsProportion(c, was, level, Rescaled(c, Scale(was, level)))
    ensures was == level ==> KeepsProportion(c, was, level, c)
  {
    hide Rescaled, Scale;
    RescaledIsNear(c, was, level);
    if was == level {
      assert was as int * c as int <= c as int * (was as int + 1);
      assert was as int * (c as int + 2) == was as int * c as int + 2 * was as int;
      assert c as int * (was as int + 1) == was as int * c as int + c as int;
    }
  }

  // ---- packed colours ----

  function Color(r: Byte, g: Byte, b: Byte): nat {
    r as int * 0x1_0000 + g as int * 0x100 + b as int
  }

  lemma ColorUnpacks(r: Byte, g: Byte, b: Byte)
    ensures Color(r, g, b) / 0x1_0000 % 256 == r && Color(r, g, b) / 0x100 % 256 == g && Color(r, g, b) % 256 == b
  {
    var upper := r as int * 0x100 + g as int;
    QuotientIs(Color(r, g, b), 0x1_0000, r, g as int * 0x100 + b as int);
    QuotientIs(Color(r, g, b), 0x100, upper, b);
    QuotientIs(upper, 0x100, r, g);
    hide Color;
    SmallMod(r, 256);
  }

  datatype ColorOrder = RGB | GRB | BRG

  class Adafruit_NeoPixel {
    const numLEDs: nat
    const rOffset: nat
    const gOffset: nat
    const bOffset: nat
    const wide: bool            // does an int hold more than 16 bits?
    const pixels: array<Byte>
    var brightness: Byte

    constructor (n: nat, order: ColorOrder, wide: bool)
      requires n < WORD16
      ensures pixels.Length == 3 * n % WORD16 && (3 * n < WORD16 ==> Valid())
      ensures brightness == 0 && numLEDs == n && this.wide == wide && fresh(pixels)
      ensures order == RGB ==> rOffset == 0 && gOffset == 1 && bOffset == 2
      ensures order == GRB ==> rOffset == 1 && gOffset == 0 && bOffset == 2
      ensures order == BRG ==> rOffset == 1 && gOffset == 2 && bOffset == 0
      ensures forall i :: 0 <= i < pixels.Length ==> pixels[i] == 0
    {
      numLEDs, brightness := n, 0;
      this.wide := wide;
      rOffset := if order == RGB then 0 else 1;
      gOffset := match order case RGB => 1 case GRB => 0 case BRG => 2;
      bOffset := match order case RGB => 2 case GRB => 2 case BRG => 0;
      pixels := new Byte[3 * n % WORD16](_ => 0);    // the byte count is kept in 16 bits
    }

    /** No stored byte is above the limit that the brightness sets. */
    ghost predicate Valid()
      reads this, pixels
    {
      && pixels.Length == 3 * numLEDs < WORD16
      && {rOffset, gOffset, bOffset} == {0, 1, 2}
      && forall i :: 0 <= i < pixels.Length ==> pixels[i] <= Limit(brightness)
    }

    method SetPixelColor(n: nat, r: Byte, g: Byte, b: Byte)
      requires Valid()
      modifies pixels
      ensures Valid()
      ensures n < numLEDs ==>
                && pixels[3 * n + rOffset] == Scaled(r, brightness)
                && pixels[3 * n + gOffset] == Scaled(g, brightness)
                && pixels[3 * n + bOffset] == Scaled(b, brightness)
      ensures n < numLEDs ==>
                var up := Limit(brightness) as int + 1;
                && 256 * pixels[3 * n + rOffset] as int <= r as int * up < 256 * pixels[3 * n + rOffset] as int + 256
                && 256 * pixels[3 * n + gOffset] as int <= g as int * up < 256 * pixels[3 * n + gOffset] as int + 256
                && 256 * pixels[3 * n + bOffset] as int <= b as int * up < 256 * pixels[3 * n + bOffset] as int + 256
      ensures forall i :: 0 <= i < pixels.Length && (n >= numLEDs || i / 3 != n) ==> pixels[i] == old(pixels[i])
    {
      if n < numLEDs {
        ScaledBound(r, brightness);
        ScaledBound(g, brightness);
        ScaledBound(b, brightness);
        ScaledIs(r, brightness);
        ScaledIs(g, brightness);
        ScaledIs(b, brightness);
        hide Scaled, Limit;
        Offsets(rOffset, gOffset, bOffset);
        var p := 3 * n;
        pixels[p + rOffset] := Scaled(r, brightness);
        pixels[p + gOffset] := Scaled(g, brightness);
        pixels[p + bOffset] := Scaled(b, brightness);
      }
    }

    /** The upper byte of a packed colour is ignored. */
    method SetPixelColorPacked(n: nat, c: nat)
      requires Valid()
      modifies pixels
      ensures Valid()
      ensures n < numLEDs ==>
                && pixels[3 * n + rOffset] == Scaled(c / 0x1_0000 % 256, brightness)
                && pixels[3 * n + gOffset] == Scaled(c / 0x100 % 256, brightness)
                && pixels[3 * n + bOffset] == Scaled(c % 256, brightness)
      ensures forall i :: 0 <= i < pixels.Length && (n >= numLEDs || i / 3 != n) ==> pixels[i] == old(pixels[i])
    {
      SetPixelColor(n, c / 0x1_0000 % 256, c / 0x100 % 256, c % 256);
    }

    method GetPixelColor(n: nat) returns (c: nat)
      requires Valid()
      ensures n >= numLEDs ==> c == 0
      ensures n < numLEDs ==>
                c == Color(Restored(pixels[3 * n + rOffset], brightness, wide),
                           Restored(pixels[3 * n + gOffset], brightness, wide),
                           Restored(pixels[3 * n + bOffset], brightness, wide))
    {
      if n >= numLEDs {
        return 0;
      }
      Offsets(rOffset, gOffset, bOffset);
      var p := 3 * n;
      var r, g, b := pixels[p + rOffset], pixels[p + gOffset], pixels[p + bOffset];
      if brightness != 0 {
        r := Restored(r, brightness, wide);
        g := Restored(g, brightness, wide);
        b := Restored(b, brightness, wide);
      }
      c := Color(r, g, b);
    }

    /** Rescales what is stored; on the way no product of 16 bits wraps. */
    method SetBrightness(level: Byte)
      requires Valid()
      modifies this`brightness, pixels
      ensures Valid() && Limit(brightness) == level && brightness as int == (level as int + 1) % 256
      ensures forall i :: 0 <= i < pixels.Length ==>
                KeepsProportion(old(pixels[i]), old(Limit(brightness)), level, pixels[i])
      ensures brightness == old(brightness) ==> pixels[..] == old(pixels[..])
      ensures brightness != old(brightness) ==>
                forall i :: 0 <= i < pixels.Length ==> pixels[i] == Rescaled(old(pixels[i]), Scale(old(Limit(brightness)), level))
      ensures forall i :: 0 <= i < pixels.Length ==> old(pixels[i]) as int * Scale(old(Limit(brightness)), level) < WORD16
    {
      hide Scale, Rescaled, Limit, KeepsProportion;
      LimitIs(level);
      LimitIs(Limit(brightness));
      LimitUnique(brightness);
      var newBrightness: Byte := (level as int + 1) % 256;
      var oldBrightness := Limit(brightness);
      forall i | 0 <= i < pixels.Length
        ensures pixels[i] as int * Scale(oldBrightness, level) < WORD16 && Rescaled(pixels[i], Scale(oldBrightness, level)) <= level
      {
        RescaledBound(pixels[i], oldBrightness, level);
      }
      ghost var was := pixels[..];
      forall i | 0 <= i < |was|
        ensures KeepsProportion(was[i], oldBrightness, level, Rescaled(was[i], Scale(oldBrightness, level)))
        ensures oldBrightness == level ==> KeepsProportion(was[i], oldBrightness, level, was[i])
      {
        ProportionKept(was[i], oldBrightness, level);
      }
      if newBrightness != brightness {
        var scale := Scale(oldBrightness, level);
        for i := 0 to pixels.Length
          invariant forall k :: 0 <= k < i ==> pixels[k] == Rescaled(old(pixels[k]), scale)
          invariant forall k :: i <= k < pixels.Length ==> pixels[k] == old(pixels[k])
        {
          pixels[i] := Rescaled(pixels[i], scale);
        }
        brightness := newBrightness;
      }
    }

    method GetBrightness() returns (level: Byte)
      ensures level == Limit(brightness) && (level as int + 1) % 256 == brightness as int
    {
      level := (brightness as int - 1) % 256;
    }

    method Clear()
      requires Valid()
      modifies pixels
      ensures Valid() && forall i :: 0 <= i < pixels.Length ==> pixels[i] == 0
    {
      for i := 0 to pixels.Length
        invariant Valid() && forall k :: 0 <= k < i ==> pixels[k] == 0
      {
        pixels[i] := 0;
      }
    }
  }

  lemma Offsets(r: nat, g: nat, b: nat)
    requires {r, g, b} == {0, 1, 2}
    ensures r < 3 && g < 3 && b < 3 && r != g && r != b && g != b
  {
    assert r in {0, 1, 2} && g in {0, 1, 2} && b in {0, 1, 2};
    assert 0 in {r, g, b} && 1 in {r, g, b} && 2 in {r, g, b};
  }

  /** A colour set and read back without a change of brightness in between: near for every part that scales up. */
  method SetAndGet(strip: Adafruit_NeoPixel, n: nat, r: Byte, g: Byte, b: Byte) returns (c: nat)
    requires strip.Valid()
    modifies strip.pixels
    ensures strip.Valid()
    ensures n >= strip.numLEDs ==> c == 0
    ensures n < strip.numLEDs ==>
              exists r', g', b' ::
                && c == Color(r', g', b')
                && CameBack(r, r', strip.brightness, strip.wide)
                && CameBack(g, g', strip.brightness, strip.wide)
                && CameBack(b, b', strip.brightness, strip.wide)
  {
    hide Scaled, Restored, Color, CameBack;
    strip.SetPixelColor(n, r, g, b);
    c := strip.GetPixelColor(n);
    if n < strip.numLEDs {
      ghost var r' := Back(r, strip.brightness, strip.wide);
      ghost var g' := Back(g, strip.brightness, strip.wide);
      ghost var b' := Back(b, strip.brightness, strip.wide);
      assert c == Color(r', g', b');
    }
  }

  predicate CameBack(v: Byte, got: Byte, brightness: Byte, wide: bool) {
    ScalesUp(Scaled(v, brightness), brightness, wide) ==> Near(v, got, brightness) && (brightness == 0 ==> got == v)
  }

  lemma Back(v: Byte, brightness: Byte, wide: bool) returns (got: Byte)
    ensures got == Restored(Scaled(v, brightness), brightness, wide) && CameBack(v, got, brightness, wide)
  {
    hide Scaled, Restored, Near;
    got := Restored(Scaled(v, brightness), brightness, wide);
    if ScalesUp(Scaled(v, brightness), brightness, wide) {
      SetThenGet(v, brightness, wide);
    }
  }
}
