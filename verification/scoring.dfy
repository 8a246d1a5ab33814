/** The scoring rule engine of scoring.py (NARPA bell-target rules): distance
    to ring score and confidence, round statistics, the split-shot test. */
module Scoring {
  import opened Common
  import opened Calibration

  /** The scoring keys of config.json. */
  datatype ScoringConfig = ScoringConfig(
    pelletMm: real,
    bullMm: real,
    ringsMm: seq<real>,
    enableBullHoleBonus: bool,
    bullHoleScore: real,
    enableOuterRing: bool,
    shotsPerRound: int)

  /** `(score, conf)` as score_hit returns it; `NoScore` is `(None, 0.0)`
      and `MissingBullHoleKey` is the KeyError raised by reading the
      "bull_hole_px" key of a target that does not have it. */
  datatype ScoreOutcome = Scored(score: real, confidence: real) | NoScore | MissingBullHoleKey

  /** Confidence tiers by relative position inside the ring, before rounding. */
  function TierConfidence(rel: real): real
  {
    if rel > 0.85 then 0.4
    else if rel > 0.7 then 0.6
    else if 1.0 - rel * 0.5 >= 0.35 then 1.0 - rel * 0.5
    else 0.35
  }

  /** confidence(distance_mm, boundary_mm). */
  function Confidence(distance: real, boundary: real): (c: real)
    ensures boundary <= 0.0 ==> c == 0.5
  {
    if boundary <= 0.0 then 0.5 else Round2(TierConfidence(distance / boundary))
  }

  /** Every confidence lies in [0.35, 1.0] for a non-negative distance, and
      the two outer tiers give exactly 0.4 and 0.6. */
  lemma ConfidenceRange(distance: real, boundary: real)
    requires distance >= 0.0
    ensures 0.35 <= Confidence(distance, boundary) <= 1.0
    ensures boundary > 0.0 && distance > 0.85 * boundary ==> Confidence(distance, boundary) == 0.4
    ensures boundary > 0.0 && 0.7 * boundary < distance <= 0.85 * boundary ==>
      Confidence(distance, boundary) == 0.6
    ensures boundary > 0.0 && distance <= 0.7 * boundary ==> Confidence(distance, boundary) >= 0.65
  {
    if boundary > 0.0 {
      RelativePosition(distance, boundary, 0.85);
      RelativePosition(distance, boundary, 0.7);
      TierRounding(distance / boundary);
    }
  }

  /** Comparing the relative position with a fraction is comparing the
      distance with that fraction of the boundary. */
  lemma RelativePosition(distance: real, boundary: real, fraction: real)
    requires distance >= 0.0 && boundary > 0.0
    ensures distance / boundary >= 0.0
    ensures distance > fraction * boundary <==> distance / boundary > fraction
  {
    var rel := distance / boundary;
    assert rel * boundary == distance;
    if rel > fraction {
      assert rel * boundary > fraction * boundary;
    } else {
      assert rel * boundary <= fraction * boundary;
    }
  }

  /** The rounded tiers for a non-negative relative position. */
  lemma TierRounding(rel: real)
    requires rel >= 0.0
    ensures 0.35 <= Round2(TierConfidence(rel)) <= 1.0
    ensures rel > 0.85 ==> Round2(TierConfidence(rel)) == 0.4
    ensures 0.7 < rel <= 0.85 ==> Round2(TierConfidence(rel)) == 0.6
    ensures rel <= 0.7 ==> Round2(TierConfidence(rel)) >= 0.65
  {
    var t := TierConfidence(rel);
    Round2Fixed(35);
    Round2Fixed(40);
    Round2Fixed(60);
    Round2Fixed(65);
    Round2Fixed(100);
    Round2Monotone(0.35, t);
    Round2Monotone(t, 1.0);
    if rel <= 0.7 {
      Round2Monotone(0.65, t);
    }
  }

  /** For a fixed positive boundary, moving the hit outward never raises the
      confidence. */
  lemma ConfidenceMonotone(d1: real, d2: real, boundary: real)
    requires 0.0 <= d1 <= d2 && boundary > 0.0
    ensures Confidence(d2, boundary) <= Confidence(d1, boundary)
  {
    var r1, r2 := d1 / boundary, d2 / boundary;
    assert r1 <= r2 by {
      assert d2 / boundary - d1 / boundary == (d2 - d1) / boundary;
    }
    assert TierConfidence(r2) <= TierConfidence(r1);
    Round2Monotone(TierConfidence(r2), TierConfidence(r1));
  }

  /** The ring score: 4, 3, 2, ... from the innermost ring outward, with the
      last ring scoring 1 when the optional outer ring is enabled. */
  function RingScore(i: nat, ringCount: nat, enableOuterRing: bool): real
  {
    if enableOuterRing && i == ringCount - 1 then 1.0 else (4 - i) as real
  }

  /** The outward ring search of score_hit from ring `i` on. */
  function RingSearch(dmm: real, rings: seq<real>, i: nat, enableOuterRing: bool): ScoreOutcome
    requires i <= |rings|
    decreases |rings| - i
  {
    if i == |rings| then Scored(0.0, 0.7)
    else if dmm <= rings[i] / 2.0 then
      Scored(RingScore(i, |rings|, enableOuterRing), Confidence(dmm, rings[i] / 2.0))
    else RingSearch(dmm, rings, i + 1, enableOuterRing)
  }

  /** The bull-hole bonus applies (lines 63-65), given that the key exists. */
  predicate BonusApplies(t: Target, cfg: ScoringConfig, dpx: real, area: Option<real>)
  {
    && cfg.enableBullHoleBonus
    && t.bullHolePx.Some? && t.bullHolePx.value != 0.0
    && area.Some? && area.value != 0.0 && area.value < 30.0
    && dpx < t.bullHolePx.value
  }

  /** The target is usable for scoring: centre and a positive scale. */
  predicate Calibrated(t: Target)
  {
    t.center.Some? && t.scaleMm.Some? && t.scaleMm.value > 0.0
  }

  /** score_hit(x, y, area).  The hit enters only through `dpx`, its pixel
      distance math.dist((x, y), centre), which the caller supplies. */
  function ScoreHit(t: Target, cfg: ScoringConfig, dpx: real, area: Option<real>): (o: ScoreOutcome)
    requires dpx >= 0.0
    ensures !Calibrated(t) ==> o == NoScore
    ensures Calibrated(t) && cfg.enableBullHoleBonus && t.bullHolePx.None? ==> o == MissingBullHoleKey
    ensures o.Scored? ==> Calibrated(t) && 0.35 <= o.confidence <= 1.0
  {
    if t.center.None? then NoScore
    else if t.scaleMm.None? || t.scaleMm.value <= 0.0 then NoScore
    else if cfg.enableBullHoleBonus && t.bullHolePx.None? then MissingBullHoleKey
    else if BonusApplies(t, cfg, dpx, area) then Scored(cfg.bullHoleScore, 1.0)
    else ScoreDistance(cfg, ToMm(dpx, t.scaleMm.value))
  }

  /** Line 56: pixels to millimetres through the calibration scale. */
  function ToMm(dpx: real, mmPerPx: real): (dmm: real)
    requires dpx >= 0.0 && mmPerPx > 0.0
    ensures dmm >= 0.0
  {
    dpx * mmPerPx
  }

  /** Lines 73-96: the bull, then the outward ring search, by distance in mm. */
  function ScoreDistance(cfg: ScoringConfig, dmm: real): (o: ScoreOutcome)
    requires dmm >= 0.0
    ensures o.Scored? && 0.35 <= o.confidence <= 1.0
  {
    ConfidenceRange(dmm, cfg.bullMm / 2.0);
    RingSearchFacts(dmm, cfg.ringsMm, 0, cfg.enableOuterRing);
    if dmm <= cfg.bullMm / 2.0 then Scored(5.0, Confidence(dmm, cfg.bullMm / 2.0))
    else RingSearch(dmm, cfg.ringsMm, 0, cfg.enableOuterRing)
  }

  /** Facts about every outcome of the ring search. */
  lemma {:induction false} RingSearchFacts(dmm: real, rings: seq<real>, i: nat, enableOuterRing: bool)
    requires i <= |rings| && dmm >= 0.0
    ensures RingSearch(dmm, rings, i, enableOuterRing).Scored?
    ensures 0.35 <= RingSearch(dmm, rings, i, enableOuterRing).confidence <= 1.0
    decreases |rings| - i
  {
    if i < |rings| {
      if dmm <= rings[i] / 2.0 {
        ConfidenceRange(dmm, rings[i] / 2.0);
      } else {
        RingSearchFacts(dmm, rings, i + 1, enableOuterRing);
      }
    }
  }

  /** The first enclosing ring decides: if ring `j` is the innermost ring
      whose radius is at least the distance (inclusive), the ring search
      from any earlier ring returns its score and boundary confidence. */
  lemma {:induction false} FirstEnclosingRing(dmm: real, rings: seq<real>, i: nat, j: nat, enableOuterRing: bool)
    requires i <= j < |rings|
    requires dmm <= rings[j] / 2.0
    requires forall k :: i <= k < j ==> dmm > rings[k] / 2.0
    ensures RingSearch(dmm, rings, i, enableOuterRing)
      == Scored(RingScore(j, |rings|, enableOuterRing), Confidence(dmm, rings[j] / 2.0))
    decreases j - i
  {
    if i < j {
      FirstEnclosingRing(dmm, rings, i + 1, j, enableOuterRing);
    }
  }

  /** Beyond every ring the result is exactly (0, 0.7). */
  lemma {:induction false} BeyondAllRings(dmm: real, rings: seq<real>, i: nat, enableOuterRing: bool)
    requires i <= |rings|
    requires forall k :: i <= k < |rings| ==> dmm > rings[k] / 2.0
    ensures RingSearch(dmm, rings, i, enableOuterRing) == Scored(0.0, 0.7)
    decreases |rings| - i
  {
    if i < |rings| {
      BeyondAllRings(dmm, rings, i + 1, enableOuterRing);
    }
  }

  /** The whole rule by distance: the bull (inclusive) scores 5, otherwise
      the first enclosing ring decides, and beyond all rings (0, 0.7). */
  lemma ScoreDistanceRule(cfg: ScoringConfig, dmm: real)
    requires dmm >= 0.0
    ensures dmm <= cfg.bullMm / 2.0 ==> ScoreDistance(cfg, dmm) == Scored(5.0, Confidence(dmm, cfg.bullMm / 2.0))
    ensures forall j :: (0 <= j < |cfg.ringsMm| && cfg.bullMm / 2.0 < dmm <= cfg.ringsMm[j] / 2.0
          && (forall k :: 0 <= k < j ==> dmm > cfg.ringsMm[k] / 2.0)) ==>
        ScoreDistance(cfg, dmm)
          == Scored(RingScore(j, |cfg.ringsMm|, cfg.enableOuterRing), Confidence(dmm, cfg.ringsMm[j] / 2.0))
    ensures (cfg.bullMm / 2.0 < dmm && forall k :: 0 <= k < |cfg.ringsMm| ==> dmm > cfg.ringsMm[k] / 2.0) ==>
        ScoreDistance(cfg, dmm) == Scored(0.0, 0.7)
  {
    forall j | 0 <= j < |cfg.ringsMm| && cfg.bullMm / 2.0 < dmm <= cfg.ringsMm[j] / 2.0
      && (forall k :: 0 <= k < j ==> dmm > cfg.ringsMm[k] / 2.0)
      ensures ScoreDistance(cfg, dmm)
        == Scored(RingScore(j, |cfg.ringsMm|, cfg.enableOuterRing), Confidence(dmm, cfg.ringsMm[j] / 2.0))
    {
      FirstEnclosingRing(dmm, cfg.ringsMm, 0, j, cfg.enableOuterRing);
    }
    if cfg.bullMm / 2.0 < dmm && (forall k :: 0 <= k < |cfg.ringsMm| ==> dmm > cfg.ringsMm[k] / 2.0) {
      BeyondAllRings(dmm, cfg.ringsMm, 0, cfg.enableOuterRing);
    }
  }

  /** A calibrated target without the bonus scores by the distance in mm,
      the pixel distance times the scale. */
  lemma ScoreHitByDistance(t: Target, cfg: ScoringConfig, dpx: real, area: Option<real>)
    requires dpx >= 0.0 && Calibrated(t)
    requires !cfg.enableBullHoleBonus
    ensures ScoreHit(t, cfg, dpx, area) == ScoreDistance(cfg, ToMm(dpx, t.scaleMm.value))
  {
  }

  /** The bonus path: when it applies, the configured bonus score is
      returned with full confidence whatever the rings say. */
  lemma BullHoleBonus(t: Target, cfg: ScoringConfig, dpx: real, area: Option<real>)
    requires dpx >= 0.0 && Calibrated(t)
    requires BonusApplies(t, cfg, dpx, area)
    ensures ScoreHit(t, cfg, dpx, area) == Scored(cfg.bullHoleScore, 1.0)
  {
  }

  /** is_split_shot: the boundary lies strictly between the pellet's nearest
      and farthest edges. */
  predicate IsSplitShot(distance: real, boundary: real, pelletMm: real)
  {
    var pelletRadius := pelletMm / 2.0;
    distance - pelletRadius < boundary < distance + pelletRadius
  }

  /** A split shot is one whose centre is closer to the boundary than the
      pellet radius. */
  lemma SplitShotIff(distance: real, boundary: real, pelletMm: real)
    ensures IsSplitShot(distance, boundary, pelletMm) <==>
      (if distance >= boundary then distance - boundary else boundary - distance) < pelletMm / 2.0
  {
  }

  // ----- Round statistics (score_distribution, format_round_score) -----

  /** The one score that score_distribution treats as a bull-hole bonus. */
  const BullHoleMark: real := 5.1

  /** The histogram bucket of one score: 5.1 counts as 5, any other score
      by int() truncation. */
  function Bucket(s: real): int
  {
    if s == BullHoleMark then 5 else Trunc(s)
  }

  /** The histogram before any score is counted. */
  const EmptyCounts: map<int, nat> := map[5 := 0, 4 := 0, 3 := 0, 2 := 0, 1 := 0, 0 := 0]

  /** The histogram the counting loop builds, score by score. */
  function Histogram(scores: seq<real>): map<int, nat>
  {
    if scores == [] then EmptyCounts
    else
      var h := Histogram(scores[..|scores| - 1]);
      var b := Bucket(scores[|scores| - 1]);
      h[b := (if b in h then h[b] else 0) + 1]
  }

  /** How many scores fall into bucket `k`. */
  function CountBucket(scores: seq<real>, k: int): nat
  {
    if scores == [] then 0
    else CountBucket(scores[..|scores| - 1], k) + (if Bucket(scores[|scores| - 1]) == k then 1 else 0)
  }

  /** How many scores are the bull-hole bonus 5.1. */
  function BullHoles(scores: seq<real>): nat
  {
    if scores == [] then 0
    else BullHoles(scores[..|scores| - 1]) + (if scores[|scores| - 1] == BullHoleMark then 1 else 0)
  }

  /** Python's sum() of the scores. */
  function Sum(scores: seq<real>): real
  {
    if scores == [] then 0.0 else Sum(scores[..|scores| - 1]) + scores[|scores| - 1]
  }

  /** The histogram holds the six standard buckets and every bucket some
      score fell into, and each entry is the number of scores in it. */
  lemma {:induction false} HistogramCounts(scores: seq<real>, k: int)
    ensures k in Histogram(scores) <==> (0 <= k <= 5 || CountBucket(scores, k) > 0)
    ensures k in Histogram(scores) ==> Histogram(scores)[k] == CountBucket(scores, k)
  {
    if scores != [] {
      HistogramCounts(scores[..|scores| - 1], k);
    }
  }

  /** When every score lands in a standard bucket, the six counts add up to
      the number of scores. */
  lemma {:induction false} StandardBucketsTotal(scores: seq<real>)
    requires forall i :: 0 <= i < |scores| ==> 0 <= Bucket(scores[i]) <= 5
    ensures CountBucket(scores, 0) + CountBucket(scores, 1) + CountBucket(scores, 2)
          + CountBucket(scores, 3) + CountBucket(scores, 4) + CountBucket(scores, 5) == |scores|
  {
    if scores != [] {
      StandardBucketsTotal(scores[..|scores| - 1]);
    }
  }

  /** Every bull hole is also counted in bucket 5. */
  lemma {:induction false} BullHolesCountedAsFive(scores: seq<real>)
    ensures BullHoles(scores) <= CountBucket(scores, 5)
  {
    if scores != [] {
      BullHolesCountedAsFive(scores[..|scores| - 1]);
    }
  }

  /** A non-empty histogram has a key to pick. */
  lemma HasKey(h: map<int, nat>)
    requires |h| != 0
    ensures exists k :: k in h
  {
    if forall k :: k !in h {
      assert false;
    }
  }

  /** The key MapTotal takes apart first. */
  ghost function PickKey(h: map<int, nat>): (k: int)
    requires |h| != 0
    ensures k in h
  {
    HasKey(h);
    var k :| k in h;
    k
  }

  /** The sum of a histogram's counts over all its keys. */
  ghost function MapTotal(h: map<int, nat>): nat
    decreases |h.Keys|
  {
    if |h| == 0 then 0
    else
      var k := PickKey(h);
      assert (h - {k}).Keys == h.Keys - {k};
      h[k] + MapTotal(h - {k})
  }

  /** The total may be taken apart at any key, not only the one
      MapTotal picks. */
  lemma {:induction false} MapTotalAt(h: map<int, nat>, k: int)
    requires k in h
    ensures MapTotal(h) == h[k] + MapTotal(h - {k})
    decreases |h.Keys|, 0
  {
    var j := PickKey(h);
    if j != k {
      assert (h - {j}).Keys == h.Keys - {j} && (h - {k}).Keys == h.Keys - {k};
      MapTotalAt(h - {j}, k);
      MapTotalAt(h - {k}, j);
      assert (h - {j} - {k}).Keys == (h - {k} - {j}).Keys;
      MapTotalSame(h - {j} - {k}, h - {k} - {j});
    }
  }

  /** Setting one count changes the total by the difference. */
  lemma MapTotalUpdate(h: map<int, nat>, b: int, v: nat)
    ensures MapTotal(h[b := v]) == MapTotal(h) - (if b in h then h[b] else 0) + v
  {
    var u := h[b := v];
    MapTotalAt(u, b);
    assert u[b] == v;
    if b in h {
      MapTotalAt(h, b);
      MapTotalSame(u - {b}, h - {b});
    } else {
      MapTotalSame(u - {b}, h);
    }
  }

  /** Histograms with the same counts have the same total. */
  lemma {:induction false} MapTotalSame(h: map<int, nat>, g: map<int, nat>)
    requires h.Keys == g.Keys
    requires forall k :: k in h ==> h[k] == g[k]
    ensures MapTotal(h) == MapTotal(g)
    decreases |h.Keys|, 1
  {
    if |h| != 0 {
      var k := PickKey(h);
      assert (h - {k}).Keys == h.Keys - {k} == (g - {k}).Keys;
      MapTotalAt(g, k);
      MapTotalSame(h - {k}, g - {k});
    }
  }

  /** A histogram of zero counts totals zero. */
  lemma {:induction false} MapTotalZero(h: map<int, nat>)
    requires forall k :: k in h ==> h[k] == 0
    ensures MapTotal(h) == 0
    decreases |h.Keys|
  {
    if |h| != 0 {
      var k := PickKey(h);
      assert (h - {k}).Keys == h.Keys - {k};
      MapTotalZero(h - {k});
    }
  }

  /** Whatever the scores, buckets outside 0..5 included (a sixth ring
      scores -1, a configured bull-hole score may exceed 5), the counts of
      the histogram add up to the number of scores. */
  lemma {:induction false} HistogramTotal(scores: seq<real>)
    ensures MapTotal(Histogram(scores)) == |scores|
  {
    if scores == [] {
      MapTotalZero(EmptyCounts);
    } else {
      var h := Histogram(scores[..|scores| - 1]);
      var b := Bucket(scores[|scores| - 1]);
      HistogramTotal(scores[..|scores| - 1]);
      MapTotalUpdate(h, b, (if b in h then h[b] else 0) + 1);
    }
  }

  /** The statistics dictionary; the empty-round dictionary has no
      "max_possible" and no "percentage" key (None). */
  datatype Distribution = Distribution(
    total: nat,
    counts: map<int, nat>,
    average: real,
    sum: real,
    bullHoles: nat,
    maxPossible: Option<int>,
    percentage: Option<real>)

  /** The statistics score_distribution returns for a list of scores. */
  function DistributionOf(scores: seq<real>): (d: Distribution)
    ensures scores == [] ==> d.total == 0 && d.counts == EmptyCounts && d.maxPossible.None? && d.percentage.None?
    ensures scores != [] ==> d.total == |scores| && d.maxPossible == Some(5 * |scores|) && d.percentage.Some?
    ensures forall k :: 0 <= k <= 5 ==> k in d.counts
  {
    if scores == [] then Distribution(0, EmptyCounts, 0.0, 0.0, 0, None, None)
    else
      var n := |scores| as real;
      var total := Sum(scores);
      forall k | 0 <= k <= 5 ensures k in Histogram(scores) { HistogramCounts(scores, k); }
      Distribution(|scores|, Histogram(scores), Round2(total / n), Round1(total),
                   BullHoles(scores), Some(|scores| * 5), Some(Round1((total / (n * 5.0)) * 100.0)))
  }

  /** score_distribution: the counting loop over the scores. */
  method ScoreDistribution(scores: seq<real>) returns (d: Distribution)
    ensures d == DistributionOf(scores)
  {
    if scores == [] {
      return Distribution(0, EmptyCounts, 0.0, 0.0, 0, None, None);
    }
    var counts := EmptyCounts;
    var bullHoles := 0;
    for i := 0 to |scores|
      invariant counts == Histogram(scores[..i])
      invariant bullHoles == BullHoles(scores[..i])
    {
      var s := scores[i];
      assert scores[..i + 1][..i] == scores[..i];
      if s == BullHoleMark {
        bullHoles := bullHoles + 1;
        counts := counts[5 := (if 5 in counts then counts[5] else 0) + 1];
      } else {
        var b := Trunc(s);
        counts := counts[b := (if b in counts then counts[b] else 0) + 1];
      }
    }
    assert scores[..|scores|] == scores;
    var n := |scores| as real;
    var total := Sum(scores);
    d := Distribution(|scores|, counts, Round2(total / n), Round1(total),
                      bullHoles, Some(|scores| * 5), Some(Round1((total / (n * 5.0)) * 100.0)));
  }

  /** What format_round_score prints, line by line: the rounded sum over
      the maximum, the individual scores, the average, the bull-hole line
      when there are any, and the incomplete-round warning (shots, target). */
  datatype RoundReport = RoundReport(
    sum: real, maxPossible: int, shots: seq<real>, average: real,
    bullHoles: Option<nat>, incomplete: Option<(nat, int)>)

  /** format_round_score; None is the KeyError its first line raises for an
      empty round, whose statistics carry no "max_possible". */
  function FormatRoundScore(scores: seq<real>, shotsPerRound: int): (r: Option<RoundReport>)
    ensures r.None? <==> scores == []
    ensures r.Some? ==> r.value.shots == scores && r.value.maxPossible == 5 * |scores|
    ensures r.Some? ==> (r.value.incomplete.Some? <==> |scores| < shotsPerRound)
    ensures r.Some? && r.value.bullHoles.Some? ==> 0 < r.value.bullHoles.value <= CountBucket(scores, 5)
  {
    var stats := DistributionOf(scores);
    if stats.maxPossible.None? then None
    else
      BullHolesCountedAsFive(scores);
      Some(RoundReport(
        stats.sum, stats.maxPossible.value, scores, stats.average,
        if stats.bullHoles > 0 then Some(stats.bullHoles) else None,
        if |scores| < shotsPerRound then Some((|scores|, shotsPerRound)) else None))
  }
}
