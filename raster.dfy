/**
 * The row-major layout both render kernels fill: a `width` x `height` image, given by the
 * colour of each pixel `(px, py)`, is the concatenation of its rows, row `py` holding the
 * pixels `(0, py) .. (width - 1, py)`.
 */
module Raster {
  import opened Ints

  /** Row `py` of an image `width` pixels wide. */
  function Row(width: nat, py: nat, pixel: (nat, nat) -> U32): (r: seq<U32>)
    ensures |r| == width
    ensures forall px :: 0 <= px < width ==> r[px] == pixel(px, py)
  {
    seq(width, px requires 0 <= px < width => pixel(px, py))
  }

  /** The first `height` rows, one after another. */
  function Image(width: nat, height: nat, pixel: (nat, nat) -> U32): seq<U32>
  {
    if height == 0 then [] else Image(width, height - 1, pixel) + Row(width, height - 1, pixel)
  }

  /** `(h - 1) * w + w == h * w`, and rows below `h` end inside the image. */
  lemma RowEnd(w: nat, h: nat, py: nat)
    requires py < h
    ensures py * w + w == (py + 1) * w <= h * w
  {
    assert (py + 1) * w <= h * w by {
      var d := h - (py + 1);
      assert h * w == (py + 1) * w + d * w;
    }
  }

  /** The image holds `width * height` slots. */
  lemma {:induction false} ImageLength(width: nat, height: nat, pixel: (nat, nat) -> U32)
    ensures |Image(width, height, pixel)| == width * height
  {
    if height > 0 {
      ImageLength(width, height - 1, pixel);
      assert width * height == width * (height - 1) + width;
    }
  }

  /** Slot `k` of the image is pixel `(k % width, k / width)`. */
  lemma {:induction false} ImageSlot(width: nat, height: nat, pixel: (nat, nat) -> U32, k: nat)
    requires k < width * height
    ensures |Image(width, height, pixel)| == width * height
    ensures k % width < width && k / width < height
    ensures Image(width, height, pixel)[k] == pixel(k % width, k / width)
  {
    ImageLength(width, height, pixel);
    var below := (height - 1) * width;
    assert width * height == below + width;
    if k < below {
      ImageSlot(width, height - 1, pixel, k);
    } else {
      ImageLength(width, height - 1, pixel);
      DivMod(k, width, height - 1, k - below);
    }
  }

  /** Pixel `(px, py)` sits in slot `py * width + px`, and every slot belongs to exactly one
      pixel, so the image writes each slot once. */
  lemma ImagePixel(width: nat, height: nat, pixel: (nat, nat) -> U32, px: nat, py: nat)
    requires px < width && py < height
    ensures py * width + px < width * height == |Image(width, height, pixel)|
    ensures Image(width, height, pixel)[py * width + px] == pixel(px, py)
  {
    RowEnd(width, height, py);
    DivMod(py * width + px, width, py, px);
    ImageSlot(width, height, pixel, py * width + px);
  }

  /** Row `py` of the image is exactly the slice `[py * width, (py + 1) * width)`: the rows are
      disjoint chunks of the image, and each depends only on its own pixels. */
  lemma ImageRow(width: nat, height: nat, pixel: (nat, nat) -> U32, py: nat)
    requires py < height
    ensures (py + 1) * width <= |Image(width, height, pixel)|
    ensures Image(width, height, pixel)[py * width .. (py + 1) * width] == Row(width, py, pixel)
  {
    RowEnd(width, height, py);
    ImageLength(width, height, pixel);
    var img := Image(width, height, pixel);
    forall px | 0 <= px < width
      ensures img[py * width .. (py + 1) * width][px] == Row(width, py, pixel)[px]
    {
      ImagePixel(width, height, pixel, px, py);
    }
  }

  /** An image is determined by its pixels alone: two pixel functions that agree on the
      image's pixels give the same image, whatever order the rows are computed in. */
  lemma {:induction false} ImageDependsOnPixels(width: nat, height: nat, f: (nat, nat) -> U32, g: (nat, nat) -> U32)
    requires forall px: nat, py: nat :: px < width && py < height ==> f(px, py) == g(px, py)
    ensures Image(width, height, f) == Image(width, height, g)
  {
    if height > 0 {
      ImageDependsOnPixels(width, height - 1, f, g);
      assert Row(width, height - 1, f) == Row(width, height - 1, g);
    }
  }

  /** An image whose pixels all have one colour is that colour in every slot. */
  lemma UniformImage(width: nat, height: nat, pixel: (nat, nat) -> U32, c: U32)
    requires forall px: nat, py: nat :: px < width && py < height ==> pixel(px, py) == c
    ensures |Image(width, height, pixel)| == width * height
    ensures forall k :: 0 <= k < width * height ==> Image(width, height, pixel)[k] == c
  {
    ImageLength(width, height, pixel);
    forall k | 0 <= k < width * height ensures Image(width, height, pixel)[k] == c {
      ImageSlot(width, height, pixel, k);
    }
  }
}
