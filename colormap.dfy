/**
 * The colour mapper of the native kernel: an escape count and a ceiling give one packed
 * 0xAARRGGBB colour. Points that never escaped are opaque black; the others blend linearly
 * between two neighbouring entries of an 8-entry palette, one band per COLOR_WIDTH iterations,
 * cycling through all 8 entries (entry 7 blends back into entry 0).
 *
 * The f64 arithmetic of the original is idealised as exact `real` arithmetic. Because the
 * iteration count is an integer below 2^32, the band loop only ever subtracts 50 from an
 * integer-valued float, which is exact; only the final division and blend are idealised.
 */
module Colormap {
  import opened Ints
  import opened Argb

  const MAP_LEN: nat := 8  // RED.len()

  /** The red table of the 8-entry palette: 0, 0, 0, 0, 128, 255, 255, 255. */
  function Red(i: nat): U8
    requires i < MAP_LEN
  {
    match i
    case 0 => 0 case 1 => 0 case 2 => 0 case 3 => 0
    case 4 => 128 case 5 => 255 case 6 => 255 case _ => 255
  }

  /** The green table: 0, 0, 128, 255, 128, 128, 255, 255. */
  function Green(i: nat): U8
    requires i < MAP_LEN
  {
    match i
    case 0 => 0 case 1 => 0 case 2 => 128 case 3 => 255
    case 4 => 128 case 5 => 128 case 6 => 255 case _ => 255
  }

  /** The blue table: 0, 255, 255, 128, 0, 0, 128, 255. */
  function Blue(i: nat): U8
    requires i < MAP_LEN
  {
    match i
    case 0 => 0 case 1 => 255 case 2 => 255 case 3 => 128
    case 4 => 0 case 5 => 0 case 6 => 128 case _ => 255
  }
  const COLOR_WIDTH: nat := 50
  const BLACK: U32 := 0xFF00_0000

  /** `0xff << 24 | r << 16 | g << 8 | b`: the bit fields do not overlap, so the bitwise OR
      is the sum written here. */
  function PackArgb(r: U8, g: U8, b: U8): U32
  {
    0xFF00_0000 + r * 0x1_0000 + g * 0x100 + b
  }

  /** Unpacking a packed colour gives back an opaque alpha and the three channels. */
  lemma PackArgbChannels(r: U8, g: U8, b: U8)
    ensures var c := PackArgb(r, g, b);
            AlphaByte(c) == 0xFF && RedByte(c) == r && GreenByte(c) == g && BlueByte(c) == b
  {
    FieldsDecode(0xFF, r, g, b);
  }

  /** Rust's saturating float-to-u32 cast: truncation toward zero, negatives and NaN to 0. */
  function TruncToU32(v: real): (r: U32)
    ensures 0.0 <= v < U32_LIMIT as real ==> r as real <= v < r as real + 1.0
  {
    if v <= 0.0 then 0 else if v >= U32_LIMIT as real then U32_MAX else v.Floor
  }

  /** `u32::clamp(t, 0, 255)` followed by the cast to u8. */
  function ClampToU8(t: U32): (r: U8)
    ensures t <= 255 ==> r == t
  {
    if t > 255 then 255 else t
  }

  /** The affine blend of two channel values at `percentage`, truncated (not rounded). */
  function ClampedInterpolation(lower: U8, higher: U8, percentage: real): (r: U8)
    ensures percentage <= 0.0 ==> r == lower
    ensures percentage >= 1.0 ==> r == higher
    ensures Between(r, lower, higher)
    ensures 0.0 < percentage < 1.0 ==>
              var v := Blend(lower as real, (higher - lower) as real, percentage);
              r as real <= v < r as real + 1.0
  {
    if percentage <= 0.0 then lower
    else if percentage >= 1.0 then higher
    else
      BlendBetween(lower, higher, percentage);
      var t := TruncToU32(Blend(lower as real, (higher - lower) as real, percentage));
      ClampToU8(t)
  }

  /** Number of whole bands below `iteration`, reduced onto the palette. */
  function StartIndex(iteration: nat): (s: nat)
    ensures s < MAP_LEN
  {
    (iteration / COLOR_WIDTH) % MAP_LEN
  }

  /** The palette entry the current band blends towards. */
  function EndIndex(iteration: nat): (e: nat)
    ensures e < MAP_LEN
  {
    (iteration / COLOR_WIDTH + 1) % MAP_LEN
  }

  /** Position inside the current band. */
  function BandFraction(iteration: nat): real
  {
    (iteration % COLOR_WIDTH) as real / COLOR_WIDTH as real
  }

  /** The colour at fraction `t` of the band from palette entry `s` to palette entry `e`. */
  function BandColor(s: nat, e: nat, t: real): U32
    requires s < MAP_LEN && e < MAP_LEN
  {
    PackArgb(ClampedInterpolation(Red(s), Red(e), t),
             ClampedInterpolation(Green(s), Green(e), t),
             ClampedInterpolation(Blue(s), Blue(e), t))
  }

  /** The colour `get_color` computes, stated with integer division and remainder. */
  function Color(iteration: U32, maxIteration: U32): U32
  {
    if maxIteration == 0 || iteration >= maxIteration then BLACK
    else BandColor(StartIndex(iteration), EndIndex(iteration), BandFraction(iteration))
  }

  /** Whole bands and remainder determine each other: quotient and remainder are unique. */
  lemma BandCount(n: nat, q: nat, r: int)
    requires n == COLOR_WIDTH * q + r && 0 <= r < COLOR_WIDTH
    ensures q == n / COLOR_WIDTH && r == n % COLOR_WIDTH
  {
  }

  /** `get_color`, with its band-counting loop: the loop ends with `start` equal to the number
      of whole bands and `fIteration` equal to the remainder, so the result is `Color`. */
  method GetColor(iteration: U32, maxIteration: U32) returns (c: U32)
    ensures c == Color(iteration, maxIteration)
  {
    if maxIteration == 0 || iteration >= maxIteration {
      return BLACK;
    }
    var fIteration: real := iteration as real;
    var start: nat := 0;
    while fIteration >= COLOR_WIDTH as real
      invariant fIteration == (iteration - COLOR_WIDTH * start) as real
      invariant fIteration >= 0.0
      decreases iteration - COLOR_WIDTH * start
    {
      fIteration := fIteration - COLOR_WIDTH as real;
      start := start + 1;
    }
    BandCount(iteration, start, iteration - COLOR_WIDTH * start);
    var t := fIteration / COLOR_WIDTH as real;
    var end := (start + 1) % MAP_LEN;
    var first := start % MAP_LEN;
    assert t == BandFraction(iteration) && first == StartIndex(iteration) && end == EndIndex(iteration);
    c := PackArgb(ClampedInterpolation(Red(first), Red(end), t),
                  ClampedInterpolation(Green(first), Green(end), t),
                  ClampedInterpolation(Blue(first), Blue(end), t));
  }

  /** Every colour the mapper produces is fully opaque. */
  lemma ColorIsOpaque(iteration: U32, maxIteration: U32)
    ensures AlphaByte(Color(iteration, maxIteration)) == 0xFF
  {
    if maxIteration != 0 && iteration < maxIteration {
      var s, e, t := StartIndex(iteration), EndIndex(iteration), BandFraction(iteration);
      var r, g, b := ClampedInterpolation(Red(s), Red(e), t), ClampedInterpolation(Green(s), Green(e), t),
                     ClampedInterpolation(Blue(s), Blue(e), t);
      assert Color(iteration, maxIteration) == PackArgb(r, g, b);
      PackArgbChannels(r, g, b);
    }
  }

  /** A zero ceiling, or a point that used the whole budget, gives the in-set sentinel. */
  lemma InSetIsBlack(iteration: U32, maxIteration: U32)
    requires maxIteration == 0 || iteration >= maxIteration
    ensures Color(iteration, maxIteration) == BLACK
  {
  }

  /** The fraction inside a band is in [0, 1), and it is 0 exactly on band boundaries. */
  lemma BandFractionRange(iteration: nat)
    ensures 0.0 <= BandFraction(iteration) < 1.0
    ensures BandFraction(iteration) == 0.0 <==> iteration % COLOR_WIDTH == 0
  {
  }

  /** Consecutive bands use consecutive palette entries, the last one blending back into the
      first, and every one of the 8 entries starts some band. */
  lemma PaletteCycle(iteration: nat)
    ensures EndIndex(iteration) == (StartIndex(iteration) + 1) % MAP_LEN
    ensures StartIndex(iteration) == MAP_LEN - 1 ==> EndIndex(iteration) == 0
    ensures forall k :: 0 <= k < MAP_LEN ==> StartIndex(COLOR_WIDTH * k) == k
  {
    var q := iteration / COLOR_WIDTH;
    assert (q + 1) % MAP_LEN == (q % MAP_LEN + 1) % MAP_LEN;
    forall k | 0 <= k < MAP_LEN ensures StartIndex(COLOR_WIDTH * k) == k {
      BandCount(COLOR_WIDTH * k, k, 0);
    }
  }

  /** On a band boundary each channel is exactly the band's starting palette entry. */
  lemma BandStartIsExact(iteration: U32, maxIteration: U32)
    requires iteration < maxIteration && iteration % COLOR_WIDTH == 0
    ensures var c, s := Color(iteration, maxIteration), (iteration / COLOR_WIDTH) % MAP_LEN;
            RedByte(c) == Red(s) && GreenByte(c) == Green(s) && BlueByte(c) == Blue(s)
  {
    BandFractionRange(iteration);
    var s, e := StartIndex(iteration), EndIndex(iteration);
    assert ClampedInterpolation(Red(s), Red(e), 0.0) == Red(s);
    assert ClampedInterpolation(Green(s), Green(e), 0.0) == Green(s);
    assert ClampedInterpolation(Blue(s), Blue(e), 0.0) == Blue(s);
    assert Color(iteration, maxIteration) == PackArgb(Red(s), Green(s), Blue(s));
    PackArgbChannels(Red(s), Green(s), Blue(s));
  }

  /** Inside a band, each channel lies between the band's two palette entries. */
  lemma ChannelsWithinBand(iteration: U32, maxIteration: U32)
    requires iteration < maxIteration
    ensures var c, s, e := Color(iteration, maxIteration), StartIndex(iteration), EndIndex(iteration);
            && Between(RedByte(c), Red(s), Red(e))
            && Between(GreenByte(c), Green(s), Green(e))
            && Between(BlueByte(c), Blue(s), Blue(e))
  {
    var s, e, t := StartIndex(iteration), EndIndex(iteration), BandFraction(iteration);
    var r, g, b := ClampedInterpolation(Red(s), Red(e), t), ClampedInterpolation(Green(s), Green(e), t),
                   ClampedInterpolation(Blue(s), Blue(e), t);
    assert Color(iteration, maxIteration) == PackArgb(r, g, b);
    PackArgbChannels(r, g, b);
  }

  /** Strictly inside a band, each channel is the truncation (not the rounding) of the affine
      blend between the band's two palette entries. */
  lemma ChannelsAreTruncated(iteration: U32, maxIteration: U32)
    requires iteration < maxIteration && iteration % COLOR_WIDTH != 0
    ensures var c, s, e, t := Color(iteration, maxIteration), StartIndex(iteration), EndIndex(iteration), BandFraction(iteration);
            && IsTruncation(RedByte(c), Blend(Red(s) as real, (Red(e) as int - Red(s)) as real, t))
            && IsTruncation(GreenByte(c), Blend(Green(s) as real, (Green(e) as int - Green(s)) as real, t))
            && IsTruncation(BlueByte(c), Blend(Blue(s) as real, (Blue(e) as int - Blue(s)) as real, t))
  {
    var s, e, t := StartIndex(iteration), EndIndex(iteration), BandFraction(iteration);
    BandFractionRange(iteration);
    assert 0.0 < t < 1.0;
    var r, g, b := ClampedInterpolation(Red(s), Red(e), t), ClampedInterpolation(Green(s), Green(e), t),
                   ClampedInterpolation(Blue(s), Blue(e), t);
    assert Color(iteration, maxIteration) == PackArgb(r, g, b);
    PackArgbChannels(r, g, b);
  }

  /** `r` is `v` with its fractional part cut off. */
  predicate IsTruncation(r: int, v: real) { r as real <= v < r as real + 1.0 }

  /** Two counts below the ceiling with the same band data get the same colour. */
  lemma SameBandSameColor(i: U32, j: U32, maxIteration: U32)
    requires i < maxIteration && j < maxIteration
    requires StartIndex(i) == StartIndex(j) && EndIndex(i) == EndIndex(j) && BandFraction(i) == BandFraction(j)
    ensures Color(i, maxIteration) == Color(j, maxIteration)
  {
  }

  /** Eight bands further on, the band data repeat. */
  lemma BandShift(i: nat)
    ensures StartIndex(i + MAP_LEN * COLOR_WIDTH) == StartIndex(i)
    ensures EndIndex(i + MAP_LEN * COLOR_WIDTH) == EndIndex(i)
    ensures BandFraction(i + MAP_LEN * COLOR_WIDTH) == BandFraction(i)
  {
    BandCount(i + MAP_LEN * COLOR_WIDTH, i / COLOR_WIDTH + MAP_LEN, i % COLOR_WIDTH);
  }

  /** The gradient repeats every 8 bands (400 iterations) below the ceiling. */
  lemma Periodic(iteration: U32, maxIteration: U32)
    requires iteration + MAP_LEN * COLOR_WIDTH < maxIteration
    ensures Color(iteration + MAP_LEN * COLOR_WIDTH, maxIteration) == Color(iteration, maxIteration)
  {
    BandShift(iteration);
    SameBandSameColor(iteration + MAP_LEN * COLOR_WIDTH, iteration, maxIteration);
  }

  /** Palette entry 0 is black, so an escaped point whose count is a multiple of 400 gets
      exactly the in-set sentinel colour. */
  lemma CycleStartLooksInSet(iteration: U32, maxIteration: U32)
    requires iteration < maxIteration && iteration % (MAP_LEN * COLOR_WIDTH) == 0
    ensures Color(iteration, maxIteration) == BLACK
  {
    var q := iteration / (MAP_LEN * COLOR_WIDTH);
    BandCount(iteration, MAP_LEN * q, 0);
    assert StartIndex(iteration) == 0;
    BandFractionRange(iteration);
  }

  /** Sample point: a count at the ceiling is black, and count 0 is palette entry 0, which is
      black as well. */
  lemma ColorSampleEnds(i: U32, m: U32)
    requires i == 0 && m == 100
    ensures Color(m, m) == BLACK && Color(i, m) == BLACK
  {
    CycleStartLooksInSet(i, m);
  }

  /** Count 49 lies strictly inside the first band ... */
  lemma ColorSampleBand(i: U32, m: U32)
    requires i == 49 && m == 100
    ensures Color(i, m) == BandColor(0, 1, 49.0 / 50.0)
  {
    assert StartIndex(i) == 0 && EndIndex(i) == 1;
  }

  /** ... where blue is the truncation of 249.9 and red and green stay 0. */
  lemma ColorSampleInside(t: real)
    requires t == 49.0 / 50.0
    ensures BandColor(0, 1, t) == PackArgb(0, 0, 249)
  {
    assert ClampedInterpolation(0, 255, t) == 249;
  }
}
