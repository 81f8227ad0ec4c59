/** Ranges of the machine integer types the two code bases use. */
module Ints {

  const U8_LIMIT: int := 0x100
  const U32_LIMIT: int := 0x1_0000_0000
  const U64_LIMIT: int := 0x1_0000_0000_0000_0000

  type U8 = x: int | 0 <= x < 0x100
  type U32 = x: int | 0 <= x < 0x1_0000_0000
  type U64 = x: int | 0 <= x < 0x1_0000_0000_0000_0000
  type I32 = x: int | -0x8000_0000 <= x < 0x8000_0000
  type I64 = x: int | -0x8000_0000_0000_0000 <= x < 0x8000_0000_0000_0000

  const I32_MIN: I32 := -0x8000_0000
  const I32_MAX: I32 := 0x7FFF_FFFF
  const U32_MAX: U32 := 0xFFFF_FFFF
  const U64_MAX: U64 := 0xFFFF_FFFF_FFFF_FFFF
  const I64_MIN: I64 := -0x8000_0000_0000_0000
  const I64_MAX: I64 := 0x7FFF_FFFF_FFFF_FFFF

  /** Two's-complement wrap-around of a mathematical integer into the 64-bit signed range. */
  function WrapI64(v: int): (r: I64)
    ensures I64_MIN <= v <= I64_MAX ==> r == v
    ensures (v - r) % U64_LIMIT == 0
  {
    (v - I64_MIN) % U64_LIMIT + I64_MIN
  }

  function Min(a: int, b: int): int { if a <= b then a else b }
  function Max(a: int, b: int): int { if a <= b then b else a }

  /** Quotient and remainder by a positive divisor are unique. */
  lemma DivMod(n: nat, d: nat, q: nat, r: nat)
    requires d > 0 && n == q * d + r && r < d
    ensures n / d == q && n % d == r
  {
    var q', r' := n / d, n % d;
    assert n == q' * d + r';
    if q' > q {
      MulMono(q + 1, q', d);
      assert false;
    } else if q' < q {
      MulMono(q' + 1, q, d);
      assert false;
    }
  }

  /** Multiplication by a natural number is monotonic. */
  lemma MulMono(a: nat, b: nat, d: nat)
    requires a <= b
    ensures a * d <= b * d
  {
    assert b * d == a * d + (b - a) * d;
  }

  /** `x` lies between `a` and `b`, whichever of the two is larger. */
  predicate Between(x: int, a: int, b: int) { Min(a, b) <= x <= Max(a, b) }
}

/** Channel view of a packed 0xAARRGGBB colour. */
module Argb {
  import opened Ints

  function AlphaByte(c: U32): U8 { c / 0x100_0000 }
  function RedByte(c: U32): U8 { (c / 0x1_0000) % 0x100 }
  function GreenByte(c: U32): U8 { (c / 0x100) % 0x100 }
  function BlueByte(c: U32): U8 { c % 0x100 }

  /** The four byte fields of `a * 2^24 + r * 2^16 + g * 2^8 + b` decode back to `a`, `r`, `g`, `b`. */
  lemma FieldsDecode(a: U8, r: U8, g: U8, b: U8)
    ensures var c := a * 0x100_0000 + r * 0x1_0000 + g * 0x100 + b;
            && 0 <= c < U32_LIMIT
            && AlphaByte(c) == a && RedByte(c) == r && GreenByte(c) == g && BlueByte(c) == b
  {
    var c := a * 0x100_0000 + r * 0x1_0000 + g * 0x100 + b;
    DivMod(c, 0x100_0000, a, r * 0x1_0000 + g * 0x100 + b);
    DivMod(c, 0x1_0000, a * 0x100 + r, g * 0x100 + b);
    DivMod(a * 0x100 + r, 0x100, a, r);
    DivMod(c, 0x100, a * 0x1_0000 + r * 0x100 + g, b);
    DivMod(a * 0x1_0000 + r * 0x100 + g, 0x100, a * 0x100 + r, g);
  }

  /** The straight affine blend `lower + delta * t` both colour mappers compute per channel. */
  function Blend(lower: real, delta: real, t: real): real { lower + delta * t }

  /** An increasing blend at a fraction inside (0, 1) stays within its two end points. */
  lemma BlendUp(lower: real, delta: real, t: real)
    requires 0.0 < t < 1.0 && delta >= 0.0
    ensures lower <= Blend(lower, delta, t) <= lower + delta
  {
    assert 0.0 <= delta * t <= delta;
  }

  /** A decreasing blend at a fraction inside (0, 1) stays within its two end points. */
  lemma BlendDown(lower: real, delta: real, t: real)
    requires 0.0 < t < 1.0 && delta < 0.0
    ensures lower + delta <= Blend(lower, delta, t) <= lower
  {
    assert delta <= delta * t <= 0.0;
  }

  /** Either way, the blend of two channel values lies between them. */
  lemma BlendBetween(lower: U8, higher: U8, t: real)
    requires 0.0 < t < 1.0
    ensures Min(lower, higher) as real <= Blend(lower as real, (higher - lower) as real, t) <= Max(lower, higher) as real
  {
    if lower <= higher {
      BlendUp(lower as real, (higher - lower) as real, t);
    } else {
      BlendDown(lower as real, (higher - lower) as real, t);
    }
  }
}
