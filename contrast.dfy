/**
 * How the native colour mapper and the managed provider (with its default band width of 50)
 * relate: they pack colours the same way and agree on the in-set black, they walk the
 * palette the same way on bands 1..6, and they part on band 7 and beyond (the native mapper
 * cycles through all 8 entries, the managed one through entries 1..7), and on rounding.
 */
module ColormapContrast {
  import opened Ints
  import Colormap
  import ColorProvider

  /** Both pack an opaque colour identically. */
  lemma SamePacking(r: U8, g: U8, b: U8)
    ensures ColorProvider.PackArgb(0xFF, r, g, b) == Colormap.PackArgb(r, g, b)
  {
  }

  /** Both give the sentinel black at and past the ceiling. */
  lemma SameInSetBlack(iteration: I32, maxIteration: I32)
    requires 0 <= iteration && 0 < maxIteration <= iteration
    ensures Colormap.Color(iteration, maxIteration) == ColorProvider.GetColor(ColorProvider.Default(), iteration, maxIteration)
    ensures Colormap.Color(iteration, maxIteration) == Colormap.BLACK
  {
  }

  /** On bands 1..6 (counts 50 to 349) both blend between the same two palette entries at the
      same fraction. */
  lemma MiddleBandsAgree(iteration: int)
    requires 50 <= iteration < 350
    ensures var p := ColorProvider.Default();
            && Colormap.StartIndex(iteration) == ColorProvider.Segment(p, iteration)
            && Colormap.EndIndex(iteration) == ColorProvider.Top(ColorProvider.Segment(p, iteration))
            && Colormap.BandFraction(iteration) == ColorProvider.Fraction(p, iteration)
  {
    var p := ColorProvider.Default();
    ColorProvider.Bounds(p, iteration);
    var q := iteration / 50;
    DivMod(iteration - 50, 50, q - 1, iteration % 50);
  }

  /** Band 7 (counts 350 to 399) blends back into entry 0 natively but into entry 1 in the
      managed provider. */
  lemma SeventhBandEndsDiffer(iteration: int)
    requires 350 <= iteration < 400
    ensures Colormap.EndIndex(iteration) == 0
    ensures ColorProvider.Top(ColorProvider.Segment(ColorProvider.Default(), iteration)) == 1
  {
    var p := ColorProvider.Default();
    ColorProvider.Bounds(p, iteration);
    DivMod(iteration - 50, 50, 6, iteration % 50);
  }

  /** Count 400 with ceiling 1000: the native mapper is back at entry 0 (black, like the
      in-set colour), the managed provider is at entry 1 (pure blue). */
  lemma CycleRestartDiffers(i: I32, m: I32)
    requires i == 400 && m == 1000
    ensures Colormap.Color(i, m) == Colormap.BLACK
    ensures ColorProvider.GetColor(ColorProvider.Default(), i, m) == ColorProvider.PackArgb(0xFF, 0, 0, 255)
  {
    Colormap.CycleStartLooksInSet(i, m);
    var p := ColorProvider.Default();
    ColorProvider.Bounds(p, i);
    assert ColorProvider.Segment(p, i) == 1 && ColorProvider.Fraction(p, i) == 0.0;
  }

  /** Count 49 with ceiling 100: the blue blend is 249.9, which the native mapper truncates to
      249 and the managed provider rounds to 250. */
  lemma RoundingDiffers(i: I32, m: I32)
    requires i == 49 && m == 100
    ensures Colormap.Color(i, m) == Colormap.PackArgb(0, 0, 249)
    ensures ColorProvider.GetColor(ColorProvider.Default(), i, m) == ColorProvider.PackArgb(0xFF, 0, 0, 250)
  {
    Colormap.ColorSampleBand(i, m);
    Colormap.ColorSampleInside(49.0 / 50.0);
    ColorProvider.RoundingSample(ColorProvider.Default(), i, m);
  }
}
