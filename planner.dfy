/** Dimension planning for one compression request: the canonical bounding
    box chosen from the source's orientation, the target size derived from
    it, and the integer decode sample size ("inSampleSize") that bounds the
    coarse decode to about twice the target's pixel count.

    The source computes the ratios in single-precision floats; here every
    ratio comparison is an exact integer cross-multiplication and every
    `(int)` cast of a positive quotient is integer division (truncation). */
module DimensionPlanner {

  /** Long side of the portrait/landscape boxes and side of the square box. */
  const LongSide: int := 1795
  /** Short side of the portrait/landscape boxes. */
  const ShortSide: int := 1287

  datatype Size = Size(width: int, height: int)

  /** Result of planning: the box, the exact target size the coarse decode is
      rescaled to, and the decode sample size. */
  datatype ScalePlan = ScalePlan(box: Size, target: Size, sampleSize: int)

  /** The bounding box has the source's orientation: portrait sources get a
      portrait box, landscape sources a landscape box, square sources the
      1795 x 1795 square. */
  function BoundingBox(width: int, height: int): (box: Size)
    ensures (box.height > box.width) <==> (height > width)
    ensures (box.height < box.width) <==> (height < width)
    ensures box.width == LongSide || box.height == LongSide
    ensures box.width == ShortSide || box.height == ShortSide || box.width == box.height
    ensures ShortSide <= box.width && ShortSide <= box.height
  {
    if height > width then Size(ShortSide, LongSide)
    else if height < width then Size(LongSide, ShortSide)
    else Size(LongSide, LongSide)
  }

  /** Transposing the source transposes its bounding box. */
  lemma BoundingBoxTransposes(width: int, height: int)
    ensures BoundingBox(height, width) == Size(BoundingBox(width, height).height, BoundingBox(width, height).width)
  {
  }

  /** Target size. When the height ratio dominates (`height/box.height >
      width/box.width`, i.e. `height * box.width > width * box.height`) the
      width is pinned to the box width and the height is the proportional
      height truncated; when the width ratio dominates the height is pinned
      and the width is the proportional width truncated; on a tie the target
      is the box itself. Either way one side lies on the box and the other is
      the largest integer not exceeding the aspect-preserving length. */
  function TargetSize(width: int, height: int): (target: Size)
    requires width > 0 && height > 0
    ensures var box := BoundingBox(width, height);
      height * box.width >= width * box.height ==>
        target.width == box.width
        && target.height * width <= height * target.width < (target.height + 1) * width
    ensures var box := BoundingBox(width, height);
      height * box.width <= width * box.height ==>
        target.height == box.height
        && target.width * height <= width * target.height < (target.width + 1) * height
  {
    var box := BoundingBox(width, height);
    if height * box.width > width * box.height then
      Size(box.width, box.width * height / width)
    else if height * box.width < width * box.height then
      Size(box.height * width / height, box.height)
    else
      box
  }

  /** The dominant-ratio choice makes the target cover the box rather than
      fit inside it: both target sides are at least the box's sides, so both
      are at least 1287 and the sample-size loop always has a positive cap. */
  lemma TargetCoversBox(width: int, height: int)
    requires width > 0 && height > 0
    ensures TargetSize(width, height).width >= BoundingBox(width, height).width
    ensures TargetSize(width, height).height >= BoundingBox(width, height).height
    ensures TargetSize(width, height).width >= ShortSide && TargetSize(width, height).height >= ShortSide
  {
    var box, t := BoundingBox(width, height), TargetSize(width, height);
    if height * box.width > width * box.height {
      // (t.height + 1) * width > height * box.width > width * box.height
      assert (t.height + 1) * width > box.height * width;
      PositiveFactorOrder(t.height + 1, box.height, width);
    } else if height * box.width < width * box.height {
      assert (t.width + 1) * height > box.width * height;
      PositiveFactorOrder(t.width + 1, box.width, height);
    }
  }

  /** Cancelling a positive factor from a strict inequality. */
  lemma PositiveFactorOrder(a: int, b: int, c: int)
    requires c > 0 && a * c > b * c
    ensures a > b
  {
  }

  lemma MultiplyMonotone(a: int, b: int, c: int)
    requires a <= b && c >= 0
    ensures a * c <= b * c
  {
    assert b * c - a * c == (b - a) * c;
  }

  /** The aspect ratio survives within one pixel: the cross-product
      difference `target.width * height - target.height * width` lies
      strictly between `-height` and `width`. */
  lemma TargetKeepsAspect(width: int, height: int)
    requires width > 0 && height > 0
    ensures var t := TargetSize(width, height);
      -height < t.width * height - t.height * width < width
  {
  }

  /** A 4000 x 3000 landscape source gets the landscape box 1795 x 1287; the
      height ratio dominates, so the target is 1795 x 1346 and overshoots the
      box's 1287 height. */
  lemma LandscapeExample()
    ensures BoundingBox(4000, 3000) == Size(1795, 1287)
    ensures TargetSize(4000, 3000) == Size(1795, 1346)
  {
  }

  /** A 1000 x 1000 square source is planned at 1795 x 1795: the target is
      never clamped to the native size, so small sources are enlarged. */
  lemma SquareExample()
    ensures TargetSize(1000, 1000) == Size(1795, 1795)
  {
  }

  /** `Math.round(n / d)` for a non-negative quotient: the nearest integer,
      with halves rounded up. */
  function RoundHalfUp(n: int, d: int): (r: int)
    requires n >= 0 && d > 0
    ensures r >= 0
    ensures -d <= 2 * (n - r * d) < d
  {
    (2 * n + d) / (2 * d)
  }

  /** The value `inSampleSize` holds when the loop starts: 1 when the source
      already fits the requested size, otherwise the smaller of the two
      rounded side ratios (which may be 0 for a very elongated source). */
  function StartSampleSize(width: int, height: int, reqWidth: int, reqHeight: int): (s: int)
    requires width > 0 && height > 0 && reqWidth > 0 && reqHeight > 0
    ensures s >= 0
    ensures height <= reqHeight && width <= reqWidth ==> s == 1
    ensures height > reqHeight || width > reqWidth ==>
      s == RoundHalfUp(height, reqHeight) || s == RoundHalfUp(width, reqWidth)
    ensures height > reqHeight || width > reqWidth ==>
      s <= RoundHalfUp(height, reqHeight) && s <= RoundHalfUp(width, reqWidth)
  {
    if height > reqHeight || width > reqWidth then
      var heightRatio := RoundHalfUp(height, reqHeight);
      var widthRatio := RoundHalfUp(width, reqWidth);
      if heightRatio < widthRatio then heightRatio else widthRatio
    else
      1
  }

  /** The decoded pixel count `width * height / s^2` is at most twice the
      requested pixel count, stated without division. */
  predicate WithinPixelCap(width: int, height: int, reqWidth: int, reqHeight: int, s: int)
  {
    width * height <= reqWidth * reqHeight * 2 * (s * s)
  }

  /** `calculateInSampleSize`: starting from `StartSampleSize`, increment the
      sample size by one while the subsampled decode would exceed twice the
      requested pixel count. The result is the least value at or above the
      start that meets the cap, and it is at least 1. */
  method CalculateInSampleSize(width: int, height: int, reqWidth: int, reqHeight: int)
    returns (inSampleSize: int)
    requires width > 0 && height > 0 && reqWidth > 0 && reqHeight > 0
    ensures inSampleSize >= 1
    ensures inSampleSize >= StartSampleSize(width, height, reqWidth, reqHeight)
    ensures WithinPixelCap(width, height, reqWidth, reqHeight, inSampleSize)
    ensures forall t :: StartSampleSize(width, height, reqWidth, reqHeight) <= t < inSampleSize ==>
      !WithinPixelCap(width, height, reqWidth, reqHeight, t)
    ensures height <= reqHeight && width <= reqWidth ==> inSampleSize == 1
  {
    var start := StartSampleSize(width, height, reqWidth, reqHeight);
    inSampleSize := start;
    var totalPixels := width * height;
    var totalReqPixelsCap := reqWidth * reqHeight * 2;
    assert totalPixels > 0;
    assert totalReqPixelsCap >= 2;
    if height <= reqHeight && width <= reqWidth {
      SmallSourceWithinCap(width, height, reqWidth, reqHeight);
    }
    // `totalPixels / (s * s) > cap` multiplied out; with s == 0 the float
    // quotient is infinite and the guard holds, as it does here.
    while totalPixels > totalReqPixelsCap * (inSampleSize * inSampleSize)
      invariant start <= inSampleSize
      invariant forall t :: start <= t < inSampleSize ==> !WithinPixelCap(width, height, reqWidth, reqHeight, t)
      decreases totalPixels - inSampleSize
    {
      CapExceedsSampleSize(totalReqPixelsCap, inSampleSize);
      inSampleSize := inSampleSize + 1;
    }
  }

  /** A source no larger than the request already meets the cap at 1. */
  lemma SmallSourceWithinCap(width: int, height: int, reqWidth: int, reqHeight: int)
    requires 0 < width <= reqWidth && 0 < height <= reqHeight
    ensures WithinPixelCap(width, height, reqWidth, reqHeight, 1)
  {
    MultiplyMonotone(width, reqWidth, height);
    MultiplyMonotone(height, reqHeight, reqWidth);
  }

  /** Loop-termination fact: a cap of at least 2 times s^2 is at least s. */
  lemma CapExceedsSampleSize(cap: int, s: int)
    requires cap >= 2 && s >= 0
    ensures cap * (s * s) >= s
  {
    if s > 0 {
      MultiplyMonotone(1, s, s);
      MultiplyMonotone(1, cap, s * s);
    }
  }

  /** The start value can lie above the least factor meeting the cap: a
      7180 x 5148 source (four times the landscape box) starts at 4 and so
      gets 4, although 3 already meets the cap. */
  lemma StartAboveLeastFactorExample()
    ensures TargetSize(7180, 5148) == Size(1795, 1287)
    ensures StartSampleSize(7180, 5148, 1795, 1287) == 4
    ensures WithinPixelCap(7180, 5148, 1795, 1287, 4)
    ensures WithinPixelCap(7180, 5148, 1795, 1287, 3)
  {
  }

  /** Lines 179-211 of the source: probe dimensions in, bounding box, target
      size and sample size out. The target always covers the box, and the
      sample size is the least admissible value at or above the start. */
  method PlanCompression(width: int, height: int) returns (plan: ScalePlan)
    requires width > 0 && height > 0
    ensures plan.box == BoundingBox(width, height)
    ensures plan.target == TargetSize(width, height)
    ensures plan.target.width >= plan.box.width && plan.target.height >= plan.box.height
    ensures plan.sampleSize >= 1
    ensures WithinPixelCap(width, height, plan.target.width, plan.target.height, plan.sampleSize)
    ensures forall t :: StartSampleSize(width, height, plan.target.width, plan.target.height) <= t < plan.sampleSize ==>
      !WithinPixelCap(width, height, plan.target.width, plan.target.height, t)
  {
    var box := BoundingBox(width, height);
    var target := TargetSize(width, height);
    TargetCoversBox(width, height);
    var s := CalculateInSampleSize(width, height, target.width, target.height);
    plan := ScalePlan(box, target, s);
  }
}
