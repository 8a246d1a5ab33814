/** The calibration store of calibration.py: one target (centre, ring radii in
    pixels, mm-per-pixel scale) and an optional perspective correction with
    its inlier quality.  OpenCV's robust fit is an input (`Fit`), as is the
    result of applying the fitted transform to a point. */
module Calibration {
  import opened Common

  /** Physical bull diameter in mm used for the bull-edge scale estimate. */
  const BullDiam: real := 9.525
  /** Physical ring diameters in mm, innermost first. */
  const RingsMm: seq<real> := [25.4, 50.8, 76.2, 101.6]

  datatype Point = Point(x: real, y: real)

  /** A fitted 3x3 perspective matrix; its entries are opaque to the model. */
  datatype Homography = Homography(rows: seq<seq<real>>)

  /** What cv2.findHomography returns when it succeeds: the matrix and the
      RANSAC inlier mask, one flag per correspondence. */
  datatype Fit = Fit(h: Homography, inlierMask: seq<bool>)

  /** The user-supplied calibration request. */
  datatype CalibrationData = CalibrationData(
    center: Point, bull: Point, outer: Point,
    srcPts: Option<seq<Point>>, dstPts: Option<seq<Point>>)

  /** The `_target` dictionary.  `bullHolePx` is the "bull_hole_px" key,
      which no operation of this module ever sets (None = key absent). */
  datatype Target = Target(
    center: Option<(int, int)>,
    ringsPx: seq<real>,
    scaleMm: Option<real>,
    bullHolePx: Option<real>)

  const EmptyTarget: Target := Target(None, [], None, None)

  /** The blended mm-per-pixel scale from the bull-edge radius and the
      outer-edge radius (both in pixels, as math.dist returns them). */
  function BlendScale(bullR: real, outerR: real): (s: real)
    ensures s > 0.0
    ensures bullR > 0.0 && outerR > 0.0 ==>
      s == 0.3 * ((BullDiam / 2.0) / bullR) + 0.7 * ((RingsMm[3] / 2.0) / outerR)
    ensures bullR > 0.0 && outerR > 0.0 ==>
      Between(s, (BullDiam / 2.0) / bullR, (RingsMm[3] / 2.0) / outerR)
    ensures bullR <= 0.0 && outerR > 0.0 ==> s == (RingsMm[3] / 2.0) / outerR
    ensures bullR > 0.0 && outerR <= 0.0 ==> s == (BullDiam / 2.0) / bullR
    ensures bullR <= 0.0 && outerR <= 0.0 ==> s == 1.0
  {
    var bullScale := if bullR > 0.0 then (BullDiam / 2.0) / bullR else 0.0;
    var outerScale := if outerR > 0.0 then (RingsMm[3] / 2.0) / outerR else 0.0;
    if bullScale > 0.0 && outerScale > 0.0 then 0.3 * bullScale + 0.7 * outerScale
    else if outerScale > 0.0 then outerScale
    else if bullScale > 0.0 then bullScale
    else 1.0
  }

  /** `s` lies between `a` and `b`, whichever way round they are. */
  predicate Between(s: real, a: real, b: real)
  {
    (a <= s <= b) || (b <= s <= a)
  }

  /** Ring radii in pixels: each physical ring radius divided by the scale. */
  function RingRadiiPx(scale: real): (px: seq<real>)
    requires scale > 0.0
    ensures |px| == |RingsMm| == 4
    ensures forall i :: 0 <= i < 4 ==> px[i] > 0.0 && px[i] * scale == RingsMm[i] / 2.0
    ensures forall i, j :: 0 <= i < j < 4 ==> px[i] < px[j]
  {
    PerPixel(RingsMm[0] / 2.0, RingsMm[1] / 2.0, scale);
    PerPixel(RingsMm[1] / 2.0, RingsMm[2] / 2.0, scale);
    PerPixel(RingsMm[2] / 2.0, RingsMm[3] / 2.0, scale);
    seq(4, i requires 0 <= i < 4 => (RingsMm[i] / 2.0) / scale)
  }

  /** Dividing two increasing positive lengths by the same positive scale
      keeps them positive and in order, and undoes by multiplication. */
  lemma PerPixel(a: real, b: real, scale: real)
    requires 0.0 < a < b && scale > 0.0
    ensures 0.0 < a / scale < b / scale
    ensures (a / scale) * scale == a && (b / scale) * scale == b
  {
  }

  /** Number of inliers in a RANSAC mask. */
  function Inliers(mask: seq<bool>): (n: nat)
    ensures n <= |mask|
  {
    if mask == [] then 0 else Inliers(mask[..|mask| - 1]) + (if mask[|mask| - 1] then 1 else 0)
  }

  /** Fraction of inlier correspondences. */
  function Quality(mask: seq<bool>): (q: real)
    requires |mask| > 0
    ensures 0.0 <= q <= 1.0
    ensures q == 1.0 <==> Inliers(mask) == |mask|
  {
    Inliers(mask) as real / |mask| as real
  }

  /** A perspective fit is attempted only with both point lists and at least
      four source points. */
  predicate HomographyRequested(data: CalibrationData)
  {
    data.srcPts.Some? && data.dstPts.Some? && |data.srcPts.value| >= 4
  }

  /** warp_point: truncation of the raw point when no transform is set,
      otherwise truncation of `projected`, the transform applied to (x, y). */
  function WarpPoint(h: Option<Homography>, x: real, y: real, projected: Point): (w: (int, int))
    ensures h.None? ==> TowardZero(x, w.0) && TowardZero(y, w.1)
    ensures h.Some? ==> TowardZero(projected.x, w.0) && TowardZero(projected.y, w.1)
  {
    if h.None? then (Trunc(x), Trunc(y)) else (Trunc(projected.x), Trunc(projected.y))
  }

  /** Without a transform, a whole-pixel point is mapped to itself. */
  lemma WarpIdentity(x: int, y: int, projected: Point)
    ensures WarpPoint(None, x as real, y as real, projected) == (x, y)
  {
    TruncWhole(x);
    TruncWhole(y);
  }

  /** Without a transform, warp_point truncates toward zero, not down:
      (-0.5, 2.5) goes to (0, 2). */
  lemma WarpTruncatesTowardZero(projected: Point)
    ensures WarpPoint(None, -0.5, 2.5, projected) == (0, 2)
  {
  }

  class Store {
    var target: Target
    var homography: Option<Homography>
    var quality: real

    /** All target fields are set together; the bull-hole key never is. */
    ghost predicate Valid()
      reads this
    {
      && 0.0 <= quality <= 1.0
      && target.bullHolePx.None?
      && (target.center.Some? <==> target.scaleMm.Some?)
      && (target.scaleMm.Some? ==>
            target.scaleMm.value > 0.0 && target.ringsPx == RingRadiiPx(target.scaleMm.value))
      && (target.scaleMm.None? ==> target.ringsPx == [])
    }

    constructor ()
      ensures Valid()
      ensures target == EmptyTarget && homography.None? && quality == 0.0
    {
      target := EmptyTarget;
      homography := None;
      quality := 0.0;
    }

    /** set_calibration.  `bullR` and `outerR` are the pixel distances from
        the truncated centre to the bull-edge and outer-edge points; `fit`
        is what the robust fit returns when it is attempted.  `raised` is
        the error cv2.findHomography raises for point lists of different
        lengths, after the target has been updated. */
    method SetCalibration(data: CalibrationData, bullR: real, outerR: real, fit: Option<Fit>)
      returns (raised: bool)
      requires Valid()
      requires IsDist(bullR, data.bull.x - Trunc(data.center.x) as real, data.bull.y - Trunc(data.center.y) as real)
      requires IsDist(outerR, data.outer.x - Trunc(data.center.x) as real, data.outer.y - Trunc(data.center.y) as real)
      requires HomographyRequested(data) && fit.Some? ==> |fit.value.inlierMask| == |data.srcPts.value|
      modifies this
      ensures Valid()
      ensures target.center == Some((Trunc(data.center.x), Trunc(data.center.y)))
      ensures target.scaleMm == Some(BlendScale(bullR, outerR))
      ensures target.ringsPx == RingRadiiPx(BlendScale(bullR, outerR))
      ensures target.bullHolePx == old(target.bullHolePx)
      ensures raised <==> HomographyRequested(data) && |data.dstPts.value| != |data.srcPts.value|
      ensures !HomographyRequested(data) || raised ==> homography == old(homography) && quality == old(quality)
      ensures HomographyRequested(data) && !raised && fit.None? ==> homography.None? && quality == old(quality)
      ensures HomographyRequested(data) && !raised && fit.Some? ==>
        homography == Some(fit.value.h) && quality == Quality(fit.value.inlierMask)
    {
      var cx, cy := Trunc(data.center.x), Trunc(data.center.y);
      var mmPerPx := BlendScale(bullR, outerR);
      target := target.(center := Some((cx, cy)), scaleMm := Some(mmPerPx), ringsPx := RingRadiiPx(mmPerPx));
      raised := false;
      if HomographyRequested(data) {
        if |data.dstPts.value| != |data.srcPts.value| {
          return true;
        }
        match fit
        case None =>
          homography := None;
        case Some(f) =>
          homography := Some(f.h);
          quality := Quality(f.inlierMask);
      }
    }

    /** get_target: never exposes a half-calibrated target. */
    function GetTarget(): (t: Target)
      reads this
      requires Valid()
      ensures t.center.Some? <==> t.scaleMm.Some?
      ensures t.scaleMm.Some? ==> t.scaleMm.value > 0.0 && |t.ringsPx| == 4
      ensures t.scaleMm.None? ==> t.ringsPx == []
    {
      target
    }

    /** get_calibration_quality: the stored inlier fraction. */
    function CalibrationQuality(): (q: real)
      reads this
      requires Valid()
      ensures 0.0 <= q <= 1.0
    {
      quality
    }

    /** reset_calibration. */
    method ResetCalibration()
      modifies this
      ensures Valid()
      ensures target == EmptyTarget && homography.None? && quality == 0.0
    {
      homography := None;
      quality := 0.0;
      target := EmptyTarget;
    }
  }
}
