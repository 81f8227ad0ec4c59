/**
 * The managed colour provider `ClassicColormapProvider`, a different cyclic scheme over the same
 * 8-entry palette: the first band (`cwidth` iterations) blends entry 0 into entry 1, and after
 * that the bands cycle over entries 1..7 only, entry 7 blending back into entry 1. Channels are
 * rounded half to even (the default of `Math.Round`), not truncated.
 *
 * The double arithmetic is idealised as exact `real` arithmetic. `(int)(val / cwidth)` with a
 * non-negative `val` is the floor of the quotient, and for integers below 2^31 the f64 quotient
 * is never close enough to the next integer to round up to it.
 */
module ColorProvider {
  import opened Wrappers
  import opened Ints
  import opened Argb
  import Colormap

  // The C# palette arrays hold the same entries as the native ones: `Colormap.Red`,
  // `Colormap.Green` and `Colormap.Blue`.
  const MAP_LEN: nat := 8  // Red.Length
  const DEFAULT_CWIDTH: I32 := 50

  datatype ArgumentOutOfRange = ArgumentOutOfRange(paramName: string)

  /** The provider's only state is the band width, fixed at construction. */
  datatype ClassicColormapProvider = ClassicColormapProvider(cwidth: I32)
  {
    predicate Valid() { cwidth > 0 }
  }

  /** The constructor: a non-positive band width is rejected, any other is stored. */
  function New(cwidth: I32): (r: Result<ClassicColormapProvider, ArgumentOutOfRange>)
    ensures r.Success? <==> cwidth > 0
    ensures r.Success? ==> r.value.cwidth == cwidth && r.value.Valid()
    ensures r.Failure? ==> r.error == ArgumentOutOfRange("cwidth")
  {
    if cwidth <= 0 then Failure(ArgumentOutOfRange("cwidth"))
    else Success(ClassicColormapProvider(cwidth))
  }

  /** `new ClassicColormapProvider()` uses a band width of 50. */
  function Default(): (p: ClassicColormapProvider)
    ensures p.Valid() && New(DEFAULT_CWIDTH) == Success(p)
  {
    ClassicColormapProvider(DEFAULT_CWIDTH)
  }

  /** `r` is a nearest integer to `x`, and the even one when `x` lies halfway between two. */
  predicate IsRoundHalfEven(r: int, x: real)
  {
    && -0.5 <= r as real - x <= 0.5
    && ((r as real - x == 0.5 || x - r as real == 0.5) ==> r % 2 == 0)
  }

  /** `Math.Round(double)`: to the nearest integer, ties to the even neighbour. */
  function RoundHalfEven(x: real): (r: int)
    ensures IsRoundHalfEven(r, x)
  {
    var f := x.Floor;
    var d := x - f as real;
    if d < 0.5 then f
    else if d > 0.5 then f + 1
    else if f % 2 == 0 then f
    else f + 1
  }

  /** The description determines the rounding: exactly one integer is the half-even rounding. */
  lemma RoundHalfEvenUnique(r: int, x: real)
    requires IsRoundHalfEven(r, x)
    ensures r == RoundHalfEven(x)
  {
  }

  /** Rounding an integer-bounded value stays within the same integer bounds. */
  lemma RoundWithin(x: real, lo: int, hi: int)
    requires lo as real <= x <= hi as real
    ensures lo <= RoundHalfEven(x) <= hi
  {
  }

  /** `Math.Clamp(v, 0, 255)` followed by the cast to byte. */
  function ClampToByte(v: int): (r: U8)
    ensures 0 <= v <= 255 ==> r == v
  {
    if v < 0 then 0 else if v > 255 then 255 else v
  }

  /** `LerpByte`: the blend of two bytes at `t`, rounded half to even. */
  function LerpByte(a: U8, b: U8, t: real): (r: U8)
    ensures t <= 0.0 ==> r == a
    ensures t >= 1.0 ==> r == b
    ensures Between(r, a, b)
    ensures 0.0 < t < 1.0 ==> IsRoundHalfEven(r, Blend(a as real, (b - a) as real, t))
  {
    if t <= 0.0 then a
    else if t >= 1.0 then b
    else
      BlendBetween(a, b, t);
      RoundWithin(Blend(a as real, (b - a) as real, t), Min(a, b), Max(a, b));
      ClampToByte(RoundHalfEven(Blend(a as real, (b - a) as real, t)))
  }

  /** `(uint)(a << 24 | r << 16 | g << 8 | b)`. The shift of `a` overflows int into the sign
      bit, and the cast to uint takes it back, so the value is the plain sum of the fields. */
  function PackArgb(a: U8, r: U8, g: U8, b: U8): U32
  {
    a * 0x100_0000 + r * 0x1_0000 + g * 0x100 + b
  }

  /** Unpacking gives back the four bytes. */
  lemma PackArgbChannels(a: U8, r: U8, g: U8, b: U8)
    ensures var c := PackArgb(a, r, g, b);
            AlphaByte(c) == a && RedByte(c) == r && GreenByte(c) == g && BlueByte(c) == b
  {
    FieldsDecode(a, r, g, b);
  }

  const BLACK: U32 := 0xFF00_0000

  /** How many whole bands past the first one `iteration` lies: `(int)(val / cwidth)`. */
  function Bands(p: ClassicColormapProvider, iteration: int): int
    requires p.Valid() && iteration >= p.cwidth
  {
    (((iteration - p.cwidth) as real) / (p.cwidth as real)).Floor
  }

  /** `segmentIndex`: the palette entry the current cyclic band starts from. */
  function Segment(p: ClassicColormapProvider, iteration: int): int
    requires p.Valid() && iteration >= p.cwidth
  {
    Bands(p, iteration) % (MAP_LEN - 1) + 1
  }

  /** `top`: the entry the band blends towards, wrapping from 8 back to 1. */
  function Top(segment: int): int
  {
    if segment + 1 >= MAP_LEN then 1 else segment + 1
  }

  /** `frac`: the position inside the current cyclic band. */
  function Fraction(p: ClassicColormapProvider, iteration: int): real
    requires p.Valid() && iteration >= p.cwidth
  {
    var val := (iteration - p.cwidth) as real;
    (val - (p.cwidth * Bands(p, iteration)) as real) / p.cwidth as real
  }

  /** `GetColor`. */
  function GetColor(p: ClassicColormapProvider, iteration: I32, maxIteration: I32): U32
    requires p.Valid()
  {
    if maxIteration <= 0 then PackArgb(0xFF, 0, 0, 0)
    else
      var it := if iteration < 0 then 0 else iteration;
      if it >= maxIteration then PackArgb(0xFF, 0, 0, 0)
      else if (it as real) < (p.cwidth as real) then
        var t := it as real / p.cwidth as real;
        PackArgb(0xFF, LerpByte(Colormap.Red(0), Colormap.Red(1), t), LerpByte(Colormap.Green(0), Colormap.Green(1), t), LerpByte(Colormap.Blue(0), Colormap.Blue(1), t))
      else
        var s := Segment(p, it);
        var top := Top(s);
        var frac := Fraction(p, it);
        Bounds(p, it);
        PackArgb(0xFF, LerpByte(Colormap.Red(s), Colormap.Red(top), frac), LerpByte(Colormap.Green(s), Colormap.Green(top), frac),
                 LerpByte(Colormap.Blue(s), Colormap.Blue(top), frac))
  }

  /** A remainder over its divisor is a fraction in [0, 1). */
  lemma ProperFraction(r: nat, d: nat)
    requires r < d
    ensures 0.0 <= (r as real) / (d as real) < 1.0
  {
    var x := (r as real) / (d as real);
    assert x * (d as real) == r as real;
  }

  /** The floor of an exact quotient of naturals is their integer division. */
  lemma FloorOfQuotient(v: nat, d: nat)
    requires d > 0
    ensures ((v as real) / (d as real)).Floor == v / d
  {
    var q, r := v / d, v % d;
    var x := (v as real) / (d as real);
    assert v as real == (q as real) * (d as real) + r as real;
    assert x == q as real + (r as real) / (d as real);
    ProperFraction(r, d);
  }

  /** The cyclic band data, stated with integer division and remainder: `Segment` and `Top`
      are consecutive entries of the cycle 1..7 and palette entry 0 is never among them, and
      the fraction is the remainder over the band width, in [0, 1). */
  lemma Bounds(p: ClassicColormapProvider, iteration: int)
    requires p.Valid() && iteration >= p.cwidth
    ensures Bands(p, iteration) == (iteration - p.cwidth) / p.cwidth
    ensures Segment(p, iteration) == ((iteration - p.cwidth) / p.cwidth) % 7 + 1
    ensures 1 <= Segment(p, iteration) <= 7 && 1 <= Top(Segment(p, iteration)) <= 7
    ensures Top(Segment(p, iteration)) == Segment(p, iteration) % 7 + 1
    ensures Fraction(p, iteration) == ((iteration - p.cwidth) % p.cwidth) as real / p.cwidth as real
    ensures 0.0 <= Fraction(p, iteration) < 1.0
  {
    var v, d := iteration - p.cwidth, p.cwidth as nat;
    FloorOfQuotient(v, d);
    var q := v / d;
    assert Bands(p, iteration) == q;
    assert v - d * q == v % d;
    assert Fraction(p, iteration) == (v % d) as real / d as real;
    ProperFraction(v % d, d);
  }

  /** Every colour the provider produces is fully opaque. */
  lemma GetColorIsOpaque(p: ClassicColormapProvider, iteration: I32, maxIteration: I32)
    requires p.Valid()
    ensures AlphaByte(GetColor(p, iteration, maxIteration)) == 0xFF
  {
    var c := GetColor(p, iteration, maxIteration);
    var it := if iteration < 0 then 0 else iteration;
    if maxIteration <= 0 || it >= maxIteration {
      assert c == PackArgb(0xFF, 0, 0, 0);
      PackArgbChannels(0xFF, 0, 0, 0);
    } else if (it as real) < (p.cwidth as real) {
      var t := it as real / p.cwidth as real;
      var r, g, b := LerpByte(Colormap.Red(0), Colormap.Red(1), t), LerpByte(Colormap.Green(0), Colormap.Green(1), t), LerpByte(Colormap.Blue(0), Colormap.Blue(1), t);
      assert c == PackArgb(0xFF, r, g, b);
      PackArgbChannels(0xFF, r, g, b);
    } else {
      Bounds(p, it);
      var s, frac := Segment(p, it), Fraction(p, it);
      var top := Top(s);
      var r, g, b := LerpByte(Colormap.Red(s), Colormap.Red(top), frac), LerpByte(Colormap.Green(s), Colormap.Green(top), frac),
                     LerpByte(Colormap.Blue(s), Colormap.Blue(top), frac);
      assert c == PackArgb(0xFF, r, g, b);
      PackArgbChannels(0xFF, r, g, b);
    }
  }

  /** A non-positive ceiling, or a count (negative counts read as 0) at or past the ceiling,
      gives opaque black. */
  lemma InSetIsBlack(p: ClassicColormapProvider, iteration: I32, maxIteration: I32)
    requires p.Valid() && (maxIteration <= 0 || Max(iteration, 0) >= maxIteration)
    ensures GetColor(p, iteration, maxIteration) == BLACK
  {
  }

  /** A negative count is coloured like count 0. */
  lemma NegativeIsZero(p: ClassicColormapProvider, iteration: I32, maxIteration: I32)
    requires p.Valid() && iteration < 0
    ensures GetColor(p, iteration, maxIteration) == GetColor(p, 0, maxIteration)
  {
  }

  /** Count 0 starts the first band at palette entry 0, which is black: it looks in-set. */
  lemma ZeroIsBlack(p: ClassicColormapProvider, maxIteration: I32)
    requires p.Valid()
    ensures GetColor(p, 0, maxIteration) == BLACK
  {
  }

  /** The first band is a pure blue ramp: red and green stay 0 and blue is the rounding of
      255 * iteration / cwidth. */
  lemma FirstBandIsBlueRamp(p: ClassicColormapProvider, iteration: I32, maxIteration: I32)
    requires p.Valid() && 0 < iteration < p.cwidth && iteration < maxIteration
    ensures var c, t := GetColor(p, iteration, maxIteration), iteration as real / p.cwidth as real;
            RedByte(c) == 0 && GreenByte(c) == 0 && IsRoundHalfEven(BlueByte(c), 255.0 * t)
  {
    var t := iteration as real / p.cwidth as real;
    ProperFraction(iteration, p.cwidth);
    var b := LerpByte(0, 255, t);
    assert GetColor(p, iteration, maxIteration) == PackArgb(0xFF, 0, 0, b);
    PackArgbChannels(0xFF, 0, 0, b);
  }

  /** Past the first band, each channel lies between the entries `Segment` and `Top` of its
      palette, two consecutive entries of the cycle 1..7; entry 0 is never used again. */
  lemma CyclicBandsAvoidEntryZero(p: ClassicColormapProvider, iteration: I32, maxIteration: I32)
    requires p.Valid() && p.cwidth <= iteration < maxIteration
    ensures var c, s := GetColor(p, iteration, maxIteration), Segment(p, iteration);
            && 1 <= s <= 7 && 1 <= Top(s) <= 7 && Top(s) == s % 7 + 1
            && Between(RedByte(c), Colormap.Red(s), Colormap.Red(Top(s)))
            && Between(GreenByte(c), Colormap.Green(s), Colormap.Green(Top(s)))
            && Between(BlueByte(c), Colormap.Blue(s), Colormap.Blue(Top(s)))
  {
    Bounds(p, iteration);
    var s, frac := Segment(p, iteration), Fraction(p, iteration);
    var top := Top(s);
    var r, g, b := LerpByte(Colormap.Red(s), Colormap.Red(top), frac), LerpByte(Colormap.Green(s), Colormap.Green(top), frac),
                   LerpByte(Colormap.Blue(s), Colormap.Blue(top), frac);
    assert GetColor(p, iteration, maxIteration) == PackArgb(0xFF, r, g, b);
    PackArgbChannels(0xFF, r, g, b);
  }

  /** Two cyclic-band counts below the ceiling with the same band data get the same colour. */
  lemma SameBandSameColor(p: ClassicColormapProvider, i: I32, j: I32, maxIteration: I32)
    requires p.Valid() && p.cwidth <= i < maxIteration && p.cwidth <= j < maxIteration
    requires Segment(p, i) == Segment(p, j) && Fraction(p, i) == Fraction(p, j)
    ensures GetColor(p, i, maxIteration) == GetColor(p, j, maxIteration)
  {
  }

  /** Seven bands further on, the cyclic band data repeat. */
  lemma CyclicBandShift(p: ClassicColormapProvider, iteration: int)
    requires p.Valid() && p.cwidth <= iteration
    ensures Segment(p, iteration + 7 * p.cwidth) == Segment(p, iteration)
    ensures Fraction(p, iteration + 7 * p.cwidth) == Fraction(p, iteration)
  {
    var j := iteration + 7 * p.cwidth;
    var v, d := iteration - p.cwidth, p.cwidth as int;
    Shift(v, d);
    assert j - p.cwidth == v + 7 * d;
    assert Segment(p, j) == Segment(p, iteration) by {
      Bounds(p, iteration);
      Bounds(p, j);
      assert (v / d + 7) % 7 == (v / d) % 7;
    }
    assert Fraction(p, j) == Fraction(p, iteration) by {
      Bounds(p, iteration);
      Bounds(p, j);
    }
  }

  /** Past the first band the gradient repeats every 7 bands below the ceiling. */
  lemma CyclicPeriod(p: ClassicColormapProvider, iteration: I32, maxIteration: I32)
    requires p.Valid() && p.cwidth <= iteration && iteration + 7 * p.cwidth < maxIteration
    ensures GetColor(p, (iteration + 7 * p.cwidth) as I32, maxIteration) == GetColor(p, iteration, maxIteration)
  {
    CyclicBandShift(p, iteration);
    SameBandSameColor(p, (iteration + 7 * p.cwidth) as I32, iteration, maxIteration);
  }

  /** Adding 7 divisors adds 7 to the quotient and keeps the remainder. */
  lemma Shift(v: nat, d: nat)
    requires d > 0
    ensures (v + 7 * d) / d == v / d + 7 && (v + 7 * d) % d == v % d
  {
    var q, r := v / d, v % d;
    assert v + 7 * d == (q + 7) * d + r;
    DivMod(v + 7 * d, d, q + 7, r);
  }

  /** Sample point: with the default band width, count 49 has blue 249.9 before rounding, and
      rounding gives 250. */
  lemma RoundingSample(p: ClassicColormapProvider, i: I32, m: I32)
    requires p == Default() && i == 49 && m == 100
    ensures GetColor(p, i, m) == PackArgb(0xFF, 0, 0, 250)
  {
    var t := 49.0 / 50.0;
    assert RoundHalfEven(Blend(0.0, 255.0, t)) == 250;
    assert LerpByte(0, 255, t) == 250;
  }
}
