/** The rule-based pellet-hole classifier of ai_classifier.py.  OpenCV's
    measurements of the crop (its shape, standard deviation, Otsu contour
    count) and of the contour (area, perimeter, minimum-area rectangle) are
    the inputs; the rule that turns them into a probability is modelled. */
module Classifier {

  /** np.pi as a double. */
  const Pi: real := 3.141592653589793

  /** The measurements classify_hit takes from OpenCV.  `area`, `perimeter`,
      `width` and `height` describe the contour it scores: the one passed in,
      or the largest Otsu contour of the crop when none is passed. */
  datatype CropFeatures = CropFeatures(
    rows: int, cols: int,
    stdDev: real,
    otsuContours: nat,
    area: real, perimeter: real,
    width: real, height: real)

  /** The outcome of the early rejections, before any weighting. */
  const WrongShape: real := 0.0
  const Rejected: real := 0.3
  const Irregular: real := 0.35
  const Floor: real := 0.35
  const Ceiling: real := 0.95

  function MinReal(a: real, b: real): real { if a <= b then a else b }
  function MaxReal(a: real, b: real): real { if a >= b then a else b }
  function Abs(a: real): real { if a >= 0.0 then a else -a }

  /** 4 pi area / perimeter squared. */
  function Circularity(area: real, perimeter: real): real
    requires perimeter != 0.0
  {
    4.0 * Pi * area / (perimeter * perimeter)
  }

  /** Long side over short side of the rectangle, 1 for a degenerate one. */
  function AspectRatio(width: real, height: real): (r: real)
    ensures width > 0.0 && height > 0.0 ==> r >= 1.0
    ensures width == height ==> r == 1.0
  {
    if width == 0.0 || height == 0.0 then 1.0
    else MaxReal(width, height) / MinReal(width, height)
  }

  /** 1 / (1 + |ratio - 1|): 1 for a square rectangle, falling off as it
      stretches. */
  function AspectScore(ratio: real): (s: real)
    ensures 0.0 < s <= 1.0
    ensures s == 1.0 <==> ratio == 1.0
  {
    var d := 1.0 + Abs(ratio - 1.0);
    assert d >= 1.0;
    assert 1.0 / d <= 1.0 by { assert 1.0 / d * d == 1.0; }
    1.0 / d
  }

  /** Contrast score: the standard deviation over 50, capped at 1. */
  function ContrastScore(stdDev: real): (s: real)
    ensures stdDev >= 0.0 ==> 0.0 <= s <= 1.0
    ensures stdDev >= 50.0 <==> s == 1.0
  {
    MinReal(stdDev / 50.0, 1.0)
  }

  /** The weighted combination 0.5 circularity + 0.3 aspect + 0.2 contrast,
      clamped to [0.35, 0.95]. */
  function Combined(circularity: real, aspect: real, stdDev: real): (p: real)
    ensures Floor <= p <= Ceiling
  {
    var confidence := 0.5 * MinReal(circularity, 1.0) + 0.3 * AspectScore(aspect) + 0.2 * ContrastScore(stdDev);
    MinReal(MaxReal(confidence, Floor), Ceiling)
  }

  /** The contour passes every early rejection. */
  predicate RoundCandidate(f: CropFeatures)
  {
    && f.rows == 16 && f.cols == 16
    && f.stdDev >= 10.0
    && f.otsuContours > 0
    && f.perimeter != 0.0 && f.area >= 5.0
    && Circularity(f.area, f.perimeter) >= 0.4
  }

  /** classify_hit(crop, contour). */
  function ClassifyHit(f: CropFeatures): (p: real)
    ensures !(f.rows == 16 && f.cols == 16) ==> p == WrongShape
    ensures f.rows == 16 && f.cols == 16 && f.stdDev < 10.0 ==> p == Rejected
    ensures RoundCandidate(f) ==> Floor <= p <= Ceiling
    ensures !RoundCandidate(f) ==> p in {WrongShape, Rejected, Irregular}
    ensures 0.0 <= p <= Ceiling
  {
    if f.rows != 16 || f.cols != 16 then WrongShape
    else if f.stdDev < 10.0 then Rejected
    else if f.otsuContours == 0 then Rejected
    else if f.perimeter == 0.0 || f.area < 5.0 then Rejected
    else if Circularity(f.area, f.perimeter) < 0.4 then Irregular
    else Combined(Circularity(f.area, f.perimeter), AspectRatio(f.width, f.height), f.stdDev)
  }

  /** Any probability of at least 0.36 comes from a 16x16 crop with enough
      contrast, a contour of non-zero perimeter and area at least 5, and
      circularity at least 0.4: every early rejection stays below it. */
  lemma AcceptanceNeedsRoundCandidate(f: CropFeatures, threshold: real)
    requires threshold > Irregular
    requires ClassifyHit(f) >= threshold
    ensures RoundCandidate(f)
  {
  }

  /** A perfectly round, square-boxed, high-contrast hole gets the ceiling
      0.95 (the unclamped combination is 1.0). */
  lemma IdealHole(f: CropFeatures)
    requires RoundCandidate(f)
    requires Circularity(f.area, f.perimeter) >= 1.0 && f.width == f.height && f.stdDev >= 50.0
    ensures ClassifyHit(f) == Ceiling
  {
  }

  /** More contrast never lowers the probability, all else equal. */
  lemma {:induction false} ContrastMonotone(f: CropFeatures, stdDev: real)
    requires f.stdDev <= stdDev
    ensures ClassifyHit(f) <= ClassifyHit(f.(stdDev := stdDev))
  {
    var g := f.(stdDev := stdDev);
    if RoundCandidate(f) {
      assert RoundCandidate(g);
      assert ContrastScore(f.stdDev) <= ContrastScore(stdDev);
    }
  }

  /** Higher circularity never lowers the weighted probability. */
  lemma CircularityMonotone(c1: real, c2: real, aspect: real, stdDev: real)
    requires c1 <= c2
    ensures Combined(c1, aspect, stdDev) <= Combined(c2, aspect, stdDev)
  {
  }
}
