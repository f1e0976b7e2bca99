/** The composite: three normalised bands stacked into one RGB image,
    each band multiplied by its slider gain and every component clipped to
    [0, vmax]. The initial render is the same computation before any
    slider has moved. */
module Composite {
  import opened Grids

  /** The four slider values update_image reads: one gain per channel and
      the intensity ceiling. */
  datatype Display = Display(red: real, green: real, blue: real, vmax: real)

  /** Every slider at its initial value. */
  const Initial: Display := Display(1.0, 1.0, 1.0, 1.0)

  /** The sliders' ranges: gains in [0, 2], ceiling in [0.1, 1]. */
  predicate InSliderRange(w: Display) {
    0.0 <= w.red <= 2.0 && 0.0 <= w.green <= 2.0 && 0.0 <= w.blue <= 2.0 &&
    0.1 <= w.vmax <= 1.0
  }

  /** The gains in channel order: red, green, blue. */
  function Gains(w: Display): (g: seq<real>)
    ensures |g| == 3
  {
    [w.red, w.green, w.blue]
  }

  /** The three bands, in channel order, agree in shape (np.dstack refuses
      them otherwise). */
  predicate Aligned(c0: seq<seq<real>>, c1: seq<seq<real>>, c2: seq<seq<real>>) {
    SameShape(c0, c1) && SameShape(c0, c2)
  }

  /** np.dstack at one position: the three band values, in channel order. */
  function Stacked(c0: seq<seq<real>>, c1: seq<seq<real>>, c2: seq<seq<real>>, i: int, j: int): (v: seq<real>)
    requires Aligned(c0, c1, c2) && 0 <= i < |c0| && 0 <= j < Width(c0)
    ensures |v| == 3
    ensures v[0] == c0[i][j] && v[1] == c1[i][j] && v[2] == c2[i][j]
  {
    [c0[i][j], c1[i][j], c2[i][j]]
  }

  /** np.clip of every component of one pixel. */
  function ClipPixel(p: seq<real>, lo: real, hi: real): (q: seq<real>)
    ensures |q| == |p|
    ensures forall k | 0 <= k < |p| :: q[k] == Clip(p[k], lo, hi)
  {
    seq(|p|, k requires 0 <= k < |p| => Clip(p[k], lo, hi))
  }

  /** One channel of update_image: band value x times gain g, clipped to
      [0, vmax]. */
  function Channel(x: real, g: real, vmax: real): (r: real)
    ensures 0.0 <= vmax ==> 0.0 <= r <= vmax
    ensures 0.0 <= x * g <= vmax ==> r == x * g
    ensures x * g <= 0.0 <= vmax ==> r == 0.0
    ensures 0.0 <= vmax <= x * g ==> r == vmax
  {
    Clip(x * g, 0.0, vmax)
  }

  /** One pixel of update_image: each band value times its gain, stacked
      and clipped to [0, vmax]. */
  function ComposePixel(v: seq<real>, w: Display): (p: seq<real>)
    requires |v| == 3
    ensures |p| == 3
    ensures forall k | 0 <= k < 3 :: p[k] == Channel(v[k], Gains(w)[k], w.vmax)
    ensures 0.0 <= w.vmax ==> forall k | 0 <= k < 3 :: 0.0 <= p[k] <= w.vmax
  {
    seq(3, k requires 0 <= k < 3 => Channel(v[k], Gains(w)[k], w.vmax))
  }

  /** Every pixel has three components, each within [lo, hi]. */
  predicate PixelsWithin(img: seq<seq<seq<real>>>, lo: real, hi: real) {
    forall i, j | 0 <= i < |img| && 0 <= j < |img[i]| ::
      |img[i][j]| == 3 && forall k | 0 <= k < 3 :: lo <= img[i][j][k] <= hi
  }

  /** update_image: the composite for the current slider values, pixel by
      pixel. With a non-negative ceiling every component lies in
      [0, vmax]. */
  function UpdateImage(c0: seq<seq<real>>, c1: seq<seq<real>>, c2: seq<seq<real>>, w: Display): (img: seq<seq<seq<real>>>)
    requires Aligned(c0, c1, c2)
    ensures SameShape(c0, img)
    ensures forall i, j | 0 <= i < |c0| && 0 <= j < Width(c0) :: img[i][j] == ComposePixel(Stacked(c0, c1, c2, i, j), w)
    ensures 0.0 <= w.vmax ==> PixelsWithin(img, 0.0, w.vmax)
  {
    seq(|c0|, i requires 0 <= i < |c0| =>
      seq(Width(c0), j requires 0 <= j < Width(c0) => ComposePixel(Stacked(c0, c1, c2, i, j), w)))
  }

  /** The render shown before any slider moves: the three bands stacked
      unweighted and clipped to [0, 1]. */
  function InitialRender(c0: seq<seq<real>>, c1: seq<seq<real>>, c2: seq<seq<real>>): (img: seq<seq<seq<real>>>)
    requires Aligned(c0, c1, c2)
    ensures SameShape(c0, img)
    ensures PixelsWithin(img, 0.0, 1.0)
  {
    seq(|c0|, i requires 0 <= i < |c0| =>
      seq(Width(c0), j requires 0 <= j < Width(c0) => ClipPixel(Stacked(c0, c1, c2, i, j), 0.0, 1.0)))
  }

  /** The initial render is the composite with every slider at its initial
      value. */
  lemma InitialRenderIsInitialUpdate(c0: seq<seq<real>>, c1: seq<seq<real>>, c2: seq<seq<real>>)
    requires Aligned(c0, c1, c2)
    ensures InitialRender(c0, c1, c2) == UpdateImage(c0, c1, c2, Initial)
  {
    var a, b := InitialRender(c0, c1, c2), UpdateImage(c0, c1, c2, Initial);
    forall i, j | 0 <= i < |c0| && 0 <= j < Width(c0)
      ensures a[i][j] == b[i][j]
    {
      forall k | 0 <= k < 3
        ensures a[i][j][k] == b[i][j][k]
      {
        assert Gains(Initial)[k] == 1.0;
      }
    }
    assert forall i | 0 <= i < |c0| :: a[i] == b[i];
  }

  /** Bands already in [0, 1] are shown unaltered by the initial render. */
  lemma InitialRenderShowsUnitBands(c0: seq<seq<real>>, c1: seq<seq<real>>, c2: seq<seq<real>>, i: int, j: int)
    requires Aligned(c0, c1, c2) && 0 <= i < |c0| && 0 <= j < Width(c0)
    requires 0.0 <= c0[i][j] <= 1.0 && 0.0 <= c1[i][j] <= 1.0 && 0.0 <= c2[i][j] <= 1.0
    ensures InitialRender(c0, c1, c2)[i][j] == [c0[i][j], c1[i][j], c2[i][j]]
  {
  }

  /** The sliders start in range, and for any slider values in range the
      composite lies in [0, 1], the display range of an RGB float image. */
  lemma SliderCompositeWithinUnit(c0: seq<seq<real>>, c1: seq<seq<real>>, c2: seq<seq<real>>, w: Display)
    requires Aligned(c0, c1, c2) && InSliderRange(w)
    ensures InSliderRange(Initial)
    ensures PixelsWithin(UpdateImage(c0, c1, c2, w), 0.0, 1.0)
  {
    var img := UpdateImage(c0, c1, c2, w);
    assert PixelsWithin(img, 0.0, w.vmax);
  }

  /** Below the ceiling the composite is linear in each gain: with the gain
      of channel k multiplied by t, and the ceiling the same, component k is
      multiplied by t. */
  lemma GainIsLinearBelowCeiling(v: seq<real>, w: Display, w': Display, k: int, t: real)
    requires |v| == 3 && 0 <= k < 3
    requires Gains(w')[k] == t * Gains(w)[k] && w'.vmax == w.vmax
    requires 0.0 <= v[k] * Gains(w)[k] <= w.vmax && 0.0 <= v[k] * Gains(w')[k] <= w.vmax
    ensures ComposePixel(v, w')[k] == t * ComposePixel(v, w)[k]
  {
  }

  /** For a non-negative band value, a larger gain never darkens that
      component. */
  lemma GainIsMonotone(v: seq<real>, w: Display, w': Display, k: int)
    requires |v| == 3 && 0 <= k < 3 && 0.0 <= v[k]
    requires Gains(w)[k] <= Gains(w')[k] && w'.vmax == w.vmax
    ensures ComposePixel(v, w)[k] <= ComposePixel(v, w')[k]
  {
    ChannelMonotoneInGain(v[k], Gains(w)[k], Gains(w')[k], w.vmax);
  }

  lemma ChannelMonotoneInGain(v: real, x: real, y: real, vmax: real)
    requires 0.0 <= v && x <= y
    ensures Channel(v, x, vmax) <= Channel(v, y, vmax)
  {
    assert v * x <= v * y;
    ClipMonotone(v * x, v * y, 0.0, vmax);
  }

  /** Each component depends on its own gain and the ceiling only: moving
      another slider leaves it unchanged. */
  lemma ChannelsAreIndependent(v: seq<real>, w: Display, w': Display, k: int)
    requires |v| == 3 && 0 <= k < 3
    requires Gains(w')[k] == Gains(w)[k] && w'.vmax == w.vmax
    ensures ComposePixel(v, w')[k] == ComposePixel(v, w)[k]
  {
  }

  /** Grey bands at 0.5: the initial sliders show (0.5, 0.5, 0.5), and a
      red gain of 2 saturates red at the ceiling 1, giving (1, 0.5, 0.5). */
  lemma GreyExample(c: seq<seq<real>>, i: int, j: int)
    requires Rect(c) && 0 <= i < |c| && 0 <= j < Width(c)
    requires forall a, b | 0 <= a < |c| && 0 <= b < Width(c) :: c[a][b] == 0.5
    ensures UpdateImage(c, c, c, Initial)[i][j] == [0.5, 0.5, 0.5]
    ensures UpdateImage(c, c, c, Initial.(red := 2.0))[i][j] == [1.0, 0.5, 0.5]
  {
    var v := Stacked(c, c, c, i, j);
    assert ComposePixel(v, Initial) == [0.5, 0.5, 0.5];
    assert ComposePixel(v, Initial.(red := 2.0)) == [1.0, 0.5, 0.5];
  }
}
