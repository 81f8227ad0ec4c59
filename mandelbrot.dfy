/**
 * The escape-time iteration both render kernels share, stated over exact `real` arithmetic
 * (the kernels compute it in f64), and the pixel-to-world mapping both kernels use.
 *
 * The orbit of `c` starts at the origin and applies z := z^2 + c; a point has escaped once
 * x^2 + y^2 > 4. The kernels' escape count is the number of steps taken before the first
 * escaping iterate, capped at the iteration budget.
 */
module Mandelbrot {
  datatype Point = Point(x: real, y: real)

  const ORIGIN := Point(0.0, 0.0)

  /** One step of the quadratic map, written out on the two coordinates. */
  function Step(c: Point, z: Point): Point
  {
    Point(z.x * z.x - z.y * z.y + c.x, 2.0 * z.x * z.y + c.y)
  }

  /** The k-th iterate of the origin under the map for `c`. */
  function Orbit(c: Point, k: nat): Point
  {
    if k == 0 then ORIGIN else Step(c, Orbit(c, k - 1))
  }

  /** A point `(x, y)` that is the k-th iterate steps to the (k+1)-th by the update both
      kernels write on their two coordinates. */
  lemma OrbitStep(c: Point, k: nat, x: real, y: real)
    requires Point(x, y) == Orbit(c, k)
    ensures Point(x * x - y * y + c.x, 2.0 * x * y + c.y) == Orbit(c, k + 1)
  {
    var z := Orbit(c, k);
    assert z.x == x && z.y == y;
    assert Orbit(c, k + 1) == Step(c, z);
  }

  /** The escape test, |z|^2 > 4. */
  predicate Escaped(z: Point)
  {
    z.x * z.x + z.y * z.y > 4.0
  }

  /** The count reached when the search for an escaping iterate starts after step `k`. */
  function EscapeFrom(c: Point, k: nat, n: nat): (i: nat)
    requires k <= n
    ensures k <= i <= n
    decreases n - k
  {
    if k == n then n
    else if Escaped(Orbit(c, k + 1)) then k
    else EscapeFrom(c, k + 1, n)
  }

  /** What the search finds: no iterate after `k` up to the count escaped, and below the cap
      the next one does. */
  lemma {:induction false} EscapeFromSpec(c: Point, k: nat, n: nat)
    requires k <= n
    ensures forall j :: k < j <= EscapeFrom(c, k, n) ==> !Escaped(Orbit(c, j))
    ensures EscapeFrom(c, k, n) < n ==> Escaped(Orbit(c, EscapeFrom(c, k, n) + 1))
    decreases n - k
  {
    if k < n && !Escaped(Orbit(c, k + 1)) {
      EscapeFromSpec(c, k + 1, n);
    }
  }

  /** The escape count of `c` with budget `n`. */
  function EscapeCount(c: Point, n: nat): (i: nat)
    ensures i <= n
  {
    EscapeFrom(c, 0, n)
  }

  /** The count is the cap exactly when none of the first `n` iterates escaped. */
  lemma EscapeCountIsCap(c: Point, n: nat)
    ensures EscapeCount(c, n) <= n
    ensures EscapeCount(c, n) == n ==> forall j :: 1 <= j <= n ==> !Escaped(Orbit(c, j))
    ensures (forall j :: 1 <= j <= n ==> !Escaped(Orbit(c, j))) ==> EscapeCount(c, n) == n
  {
    var i := EscapeCount(c, n);
    EscapeFromSpec(c, 0, n);
    assert forall j :: 0 < j <= i ==> !Escaped(Orbit(c, j));
    if i < n {
      assert 1 <= i + 1 <= n && Escaped(Orbit(c, i + 1));
      assert !(forall j :: 1 <= j <= n ==> !Escaped(Orbit(c, j)));
    } else {
      assert forall j :: 1 <= j <= n ==> !Escaped(Orbit(c, j));
    }
  }

  /** Any count that fits the description (no escape up to it, escape right after it unless
      it is the cap) is the escape count: the description determines it. */
  lemma EscapeCountUnique(c: Point, n: nat, i: nat)
    requires i <= n
    requires forall j :: 1 <= j <= i ==> !Escaped(Orbit(c, j))
    requires i < n ==> Escaped(Orbit(c, i + 1))
    ensures EscapeCount(c, n) == i
  {
    var r := EscapeCount(c, n);
    EscapeFromSpec(c, 0, n);
    assert r < n ==> Escaped(Orbit(c, r + 1));
    assert forall j :: 1 <= j <= r ==> !Escaped(Orbit(c, j));
  }

  /** The origin is a fixed point of its own map. */
  lemma {:induction false} OriginOrbit(k: nat)
    ensures Orbit(ORIGIN, k) == ORIGIN
  {
    if k > 0 {
      OriginOrbit(k - 1);
    }
  }

  /** So the origin is in the set: it always uses the whole budget. */
  lemma OriginNeverEscapes(c: Point, n: nat)
    requires c == ORIGIN
    ensures EscapeCount(c, n) == n
  {
    forall j | 1 <= j <= n ensures !Escaped(Orbit(c, j)) {
      OriginOrbit(j);
    }
    EscapeCountUnique(c, n, n);
  }

  /** A point whose first iterate is already outside the radius (the first iterate is `c`
      itself) escapes at count 0. */
  lemma FarPointEscapesAtOnce(c: Point, n: nat)
    requires Escaped(c)
    ensures EscapeCount(c, n) == 0
  {
    assert Orbit(c, 1) == c;
  }

  /** Growing the budget never lowers the count, and a count below the old budget stays. */
  lemma {:induction false} EscapeFromMonotone(c: Point, k: nat, n: nat, m: nat)
    requires k <= n <= m
    ensures EscapeFrom(c, k, n) <= EscapeFrom(c, k, m)
    ensures EscapeFrom(c, k, n) < n ==> EscapeFrom(c, k, m) == EscapeFrom(c, k, n)
    decreases n - k
  {
    if k < n && !Escaped(Orbit(c, k + 1)) {
      EscapeFromMonotone(c, k + 1, n, m);
    }
  }

  /** World x of pixel column `px`: `cx + (px - widthPx / 2) / zoom`. */
  function WorldX(cx: real, zoom: nat, widthPx: int, px: nat): real
    requires zoom > 0
  {
    cx + (px as real - widthPx as real * 0.5) * (1.0 / zoom as real)
  }

  /** World y of pixel row `py`: screen y grows downwards and world y upwards. */
  function WorldY(cy: real, zoom: nat, heightPx: int, py: nat): real
    requires zoom > 0
  {
    cy + (-(py as real - heightPx as real * 0.5) * (1.0 / zoom as real))
  }

  /** The world point at the centre of pixel `(px, py)`. */
  function PixelToWorld(cx: real, cy: real, zoom: nat, widthPx: int, heightPx: int, px: nat, py: nat): Point
    requires zoom > 0
  {
    Point(WorldX(cx, zoom, widthPx, px), WorldY(cy, zoom, heightPx, py))
  }

  /** The mapping is an axis-aligned scaling by 1/zoom about the image centre: one pixel to
      the right adds 1/zoom to x, one pixel down subtracts 1/zoom from y, and the pixel at
      half the width and height is the camera centre. */
  lemma PixelMapping(cx: real, cy: real, zoom: nat, widthPx: int, heightPx: int, px: nat, py: nat)
    requires zoom > 0
    ensures WorldX(cx, zoom, widthPx, px + 1) == WorldX(cx, zoom, widthPx, px) + 1.0 / zoom as real
    ensures WorldY(cy, zoom, heightPx, py + 1) == WorldY(cy, zoom, heightPx, py) - 1.0 / zoom as real
    ensures px as real == widthPx as real * 0.5 ==> WorldX(cx, zoom, widthPx, px) == cx
    ensures py as real == heightPx as real * 0.5 ==> WorldY(cy, zoom, heightPx, py) == cy
  {
  }
}
