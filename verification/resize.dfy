/** The canvas size that `compressImage` in script.js picks for a decoded
    image: the image is scaled down proportionally to fit a 1920 x 1080 box,
    first by width, then, on the already scaled values, by height.
 */
module Resize {
  import opened Rounding

  const MaxWidth: nat := 1920
  const MaxHeight: nat := 1080

  /** Width and height of an image or canvas, in pixels. */
  datatype Dimensions = Dimensions(width: nat, height: nat)

  /** The size lies inside the 1920 x 1080 box. */
  predicate Fits(d: Dimensions) {
    d.width <= MaxWidth && d.height <= MaxHeight
  }

  /** The width check: a too wide image is scaled so its width is exactly
      1920, its height rounded in proportion. */
  function FitWidth(d: Dimensions): (r: Dimensions)
    ensures r.width <= MaxWidth
    ensures r.width <= d.width && r.height <= d.height
    ensures d.width <= MaxWidth ==> r == d
    ensures d.width > MaxWidth ==>
              r.width == MaxWidth && IsRoundedQuotient(r.height, d.height * MaxWidth, d.width)
  {
    if d.width > MaxWidth then
      RoundDivAtMost(d.height * MaxWidth, d.width, d.height);
      Dimensions(MaxWidth, RoundDiv(d.height * MaxWidth, d.width))
    else
      d
  }

  /** The height check: a too tall image is scaled so its height is exactly
      1080, its width rounded in proportion. */
  function FitHeight(d: Dimensions): (r: Dimensions)
    ensures r.height <= MaxHeight
    ensures r.width <= d.width && r.height <= d.height
    ensures d.height <= MaxHeight ==> r == d
    ensures d.height > MaxHeight ==>
              r.height == MaxHeight && IsRoundedQuotient(r.width, d.width * MaxHeight, d.height)
  {
    if d.height > MaxHeight then
      RoundDivAtMost(d.width * MaxHeight, d.height, d.width);
      Dimensions(RoundDiv(d.width * MaxHeight, d.height), MaxHeight)
    else
      d
  }

  /** The size `compressImage` gives the canvas: the width check, then the
      height check on its result. */
  function Clamp(d: Dimensions): (r: Dimensions)
    ensures Fits(r)
    ensures r.width <= d.width && r.height <= d.height
    ensures Fits(d) ==> r == d
    ensures d.width > MaxWidth && FitWidth(d).height <= MaxHeight ==>
              r == Dimensions(MaxWidth, RoundDiv(d.height * MaxWidth, d.width))
    ensures FitWidth(d).height > MaxHeight ==> r.height == MaxHeight
  {
    FitHeight(FitWidth(d))
  }

  /** The clamp leaves a size alone exactly when it already fits the box. */
  lemma ClampFixedPointIff(d: Dimensions)
    ensures Clamp(d) == d <==> Fits(d)
  {
  }

  /** Clamping a second time changes nothing. */
  lemma ClampIdempotent(d: Dimensions)
    ensures Clamp(Clamp(d)) == Clamp(d)
  {
  }

  /** Each rescale keeps the aspect ratio to within half a pixel: the
      rounded side differs from the exact proportional value by at most 1/2. */
  lemma ClampProportion(d: Dimensions)
    ensures var m := FitWidth(d);
            d.width > MaxWidth ==>
              -(d.width as int) <= 2 * m.height * d.width - 2 * d.height * MaxWidth as int <= d.width
    ensures var m, r := FitWidth(d), Clamp(d);
            m.height > MaxHeight ==>
              -(m.height as int) <= 2 * r.width * m.height - 2 * m.width * MaxHeight as int <= m.height
  {
    var m, r := FitWidth(d), Clamp(d);
    if d.width > MaxWidth {
      assert d.width * (2 * m.height - 1) == 2 * m.height * d.width - d.width;
      assert d.width * (2 * m.height + 1) == 2 * m.height * d.width + d.width;
    }
    if m.height > MaxHeight {
      assert m.height * (2 * r.width - 1) == 2 * r.width * m.height - m.height;
      assert m.height * (2 * r.width + 1) == 2 * r.width * m.height + m.height;
    }
  }

  /** The per-step bound of `ClampProportion` does not carry over to the
      whole clamp: when both checks fire, their rounding errors add up.
      3639 x 2082 first becomes 1920 x 1098 and then 1889 x 1080, while the
      width in proportion to the source is 3639 * 1080 / 2082, about 1887.67,
      so the output width is off by more than half a pixel. */
  lemma ClampErrorsCompound()
    ensures FitWidth(Dimensions(3639, 2082)) == Dimensions(1920, 1098)
    ensures Clamp(Dimensions(3639, 2082)) == Dimensions(1889, 1080)
    ensures 2 * 1889 * 2082 - 2 * 3639 * MaxHeight > 2082
  {
  }

  /** The three worked sizes: a 16:9 image that the width step already
      brings to the box, a wide one that only needs the width step, and a
      tall one that only needs the height step. */
  lemma ClampExamples()
    ensures Clamp(Dimensions(3840, 2160)) == Dimensions(1920, 1080)
    ensures Clamp(Dimensions(4000, 1000)) == Dimensions(1920, 480)
    ensures Clamp(Dimensions(1000, 4000)) == Dimensions(270, 1080)
  {
  }

  /** The output may have a zero side: extreme aspect ratios round one
      dimension down to 0, and nothing in the code guards against it. */
  lemma ClampCanReachZero()
    ensures Clamp(Dimensions(10000, 1)) == Dimensions(1920, 0)
    ensures Clamp(Dimensions(1, 10000)) == Dimensions(0, 1080)
  {
  }

  /** Exactly when the output height is 0: the input height was already 0,
      or the width step scaled a height below 1/2. */
  lemma ClampHeightZeroIff(d: Dimensions)
    ensures Clamp(d).height == 0 <==>
              d.height == 0 || (d.width > MaxWidth && 2 * d.height * MaxWidth < d.width)
  {
    if d.width > MaxWidth {
      RoundDivZeroIff(d.height * MaxWidth, d.width);
    }
  }

  /** Exactly when the output width is 0: the input width was already 0,
      or the height step scaled the (width-clamped) width below 1/2. */
  lemma ClampWidthZeroIff(d: Dimensions)
    ensures var m := FitWidth(d);
            Clamp(d).width == 0 <==>
              d.width == 0 || (m.height > MaxHeight && 2 * m.width * MaxHeight < m.height)
  {
    var m := FitWidth(d);
    if m.height > MaxHeight {
      RoundDivZeroIff(m.width * MaxHeight, m.height);
    }
  }

  /** For a fixed input width, a taller input never yields a shorter output
      nor a wider one. */
  lemma ClampMonotoneInHeight(w: nat, h1: nat, h2: nat)
    requires h1 <= h2
    ensures Clamp(Dimensions(w, h1)).height <= Clamp(Dimensions(w, h2)).height
    ensures Clamp(Dimensions(w, h1)).width >= Clamp(Dimensions(w, h2)).width
  {
    var m1, m2 := FitWidth(Dimensions(w, h1)), FitWidth(Dimensions(w, h2));
    if w > MaxWidth {
      RoundDivMonotone(h1 * MaxWidth, h2 * MaxWidth, w);
    }
    assert m1.width == m2.width && m1.height <= m2.height;
    if m1.height > MaxHeight {
      RoundDivAntitone(m1.width * MaxHeight, m1.height, m2.height);
    }
  }

  /** The clamp is not monotone in both sides at once: one more pixel of
      width costs a pixel of height. */
  lemma ClampNotMonotone()
    ensures Clamp(Dimensions(1920, 1080)) == Dimensions(1920, 1080)
    ensures Clamp(Dimensions(1921, 1080)) == Dimensions(1920, 1079)
  {
  }

  /** The two checks in the other order. */
  function HeightFirst(d: Dimensions): Dimensions {
    FitWidth(FitHeight(d))
  }

  /** The order of the checks shows in the result: the width-first clamp and
      the height-first one round 1921 x 1081 differently. */
  lemma ClampOrderMatters()
    ensures Clamp(Dimensions(1921, 1081)) == Dimensions(1920, 1080)
    ensures HeightFirst(Dimensions(1921, 1081)) == Dimensions(1919, 1080)
  {
  }
}
