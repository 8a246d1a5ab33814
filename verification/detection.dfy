/** The shot lifecycle of detection.py: the detect on/off switch, the hit
    list, the frame-counted shot cooldown, the per-camera background
    baselines, and process_frame's per-contour acceptance gates.

    OpenCV's image work is input: the frame arrives blurred and as grey, and
    each contour arrives as a `Candidate` carrying what OpenCV measures on it
    (area, moments, perimeter, rectangle, the statistics of its 16x16 crop)
    together with the homography applied to its centroid and the pixel
    distance of the warped point from the target centre.  Drawing the
    detection circle on the frame is the parameter `mark`. */
module Detection {
  import opened Common
  import opened Calibration
  import opened Scoring
  import Classifier
  import Heatmap

  /** "baseline_update_mode": "selective", "always", or anything else,
      which updates nothing. */
  datatype UpdateMode = Selective | Always | Never

  /** The detection keys of config.json. */
  datatype DetectionConfig = DetectionConfig(
    minArea: real, maxArea: real, minConfidence: real, cooldownFrames: int, mode: UpdateMode)

  type CamId = string
  type Colour = (int, int, int)
  type Image<P> = seq<seq<P>>

  /** One entry of `hits`.  The warped point is already whole, so round(wx, 2)
      keeps it an integer. */
  datatype Hit = Hit(x: int, y: int, score: real, confidence: real, aiProb: real)

  /** One external contour, as OpenCV measures it. */
  datatype Candidate = Candidate(
    area: real,
    m00: real, m10: real, m01: real,
    cropStd: real, cropContours: nat,
    perimeter: real, rectW: real, rectH: real,
    projected: Point,
    centreDist: real)

  /** Everything a frame is examined against: the calibration of the moment,
      the configuration, and the frame size. */
  datatype Env = Env(
    target: Target, homography: Option<Homography>,
    scoring: ScoringConfig, detection: DetectionConfig,
    width: int, height: int)

  /** What the gates decide for one contour; `Raise` is the KeyError from
      score_hit, which ends the frame. */
  datatype Verdict = Accept(hit: Hit, mark: (int, int)) | Skip | Raise

  /** What process_frame hands to draw_overlay, or the exception it lets
      escape. */
  datatype FrameResult = Overlay(image: Image<Colour>) | KeyErrorRaised

  /** Duplicates are looked for among the last five hits only. */
  const RecentHits: nat := 5
  /** Side of the classifier crop, centred on the centroid. */
  const CropSize: int := 16

  function Sq(v: int): int { v * v }

  /** math.dist((x, y), (h.x, h.y)) < 10, on whole pixels. */
  predicate CloseTo(h: Hit, x: int, y: int)
  {
    Sq(x - h.x) + Sq(y - h.y) < 100
  }

  /** The warped point is within 10 pixels of one of the last five hits. */
  predicate TooClose(hits: seq<Hit>, x: int, y: int)
  {
    var recent := LastN(hits, RecentHits);
    exists k :: 0 <= k < |recent| && CloseTo(recent[k], x, y)
  }

  /** A hit exactly 10 pixels away is not a duplicate: the test is strict. */
  lemma TenPixelsIsNotDuplicate(h: Hit)
    ensures !TooClose([h], h.x + 10, h.y)
    ensures TooClose([h], h.x + 9, h.y)
  {
    assert LastN([h], RecentHits)[0] == h;
  }

  function CentroidX(c: Candidate): real requires c.m00 != 0.0 { c.m10 / c.m00 }
  function CentroidY(c: Candidate): real requires c.m00 != 0.0 { c.m01 / c.m00 }

  /** The warped centroid (line 160). */
  function Warped(env: Env, c: Candidate): (int, int)
    requires c.m00 != 0.0
  {
    WarpPoint(env.homography, CentroidX(c), CentroidY(c), c.projected)
  }

  /** The inputs are consistent: `centreDist` is the distance of the warped
      centroid from the target centre. */
  predicate Measured(env: Env, c: Candidate)
  {
    && c.centreDist >= 0.0
    && (c.m00 != 0.0 && env.target.center.Some? ==>
          IsDist(c.centreDist,
                 (Warped(env, c).0 - env.target.center.value.0) as real,
                 (Warped(env, c).1 - env.target.center.value.1) as real))
  }

  /** The crop's top-left corner (line 143). */
  function CropX(c: Candidate): int requires c.m00 != 0.0 { Trunc(CentroidX(c) - 8.0) }
  function CropY(c: Candidate): int requires c.m00 != 0.0 { Trunc(CentroidY(c) - 8.0) }

  /** Line 146: the crop lies strictly inside the frame. */
  predicate CropInside(env: Env, x0: int, y0: int)
  {
    0 <= x0 && 0 <= y0 && x0 + CropSize < env.width && y0 + CropSize < env.height
  }

  /** The length of the slice [lo:lo+16] of an axis of length `n`, lo >= 0. */
  function SliceLen(lo: int, n: int): int
  {
    if lo >= n then 0 else if lo + CropSize <= n then CropSize else n - lo
  }

  /** What classify_hit sees: the crop's shape and statistics, and the
      contour's own area, perimeter and rectangle. */
  function Features(env: Env, c: Candidate, x0: int, y0: int): Classifier.CropFeatures
  {
    Classifier.CropFeatures(SliceLen(y0, env.height), SliceLen(x0, env.width),
      c.cropStd, c.cropContours, c.area, c.perimeter, c.rectW, c.rectH)
  }

  function Probability(env: Env, c: Candidate): real
    requires c.m00 != 0.0
  {
    Classifier.ClassifyHit(Features(env, c, CropX(c), CropY(c)))
  }

  /** The gates before scoring, in source order (lines 129-171). */
  predicate PreScoreGates(env: Env, c: Candidate, hits: seq<Hit>)
  {
    && env.detection.minArea <= c.area <= env.detection.maxArea
    && c.m00 != 0.0
    && CropInside(env, CropX(c), CropY(c))
    && Features(env, c, CropX(c), CropY(c)).rows == CropSize
    && Features(env, c, CropX(c), CropY(c)).cols == CropSize
    && Probability(env, c) >= env.detection.minConfidence
    && !TooClose(hits, Warped(env, c).0, Warped(env, c).1)
  }

  /** Every gate passes, scoring included (lines 129-182), cooldown aside. */
  predicate Admissible(env: Env, c: Candidate, hits: seq<Hit>)
    requires Measured(env, c)
  {
    && PreScoreGates(env, c, hits)
    && ScoreHit(env.target, env.scoring, c.centreDist, None).Scored?
    && ScoreHit(env.target, env.scoring, c.centreDist, None).confidence >= 0.5
  }

  /** The hit recorded for an admissible contour (lines 184-190). */
  function HitOf(env: Env, c: Candidate): Hit
    requires Measured(env, c) && c.m00 != 0.0
    requires ScoreHit(env.target, env.scoring, c.centreDist, None).Scored?
  {
    var o := ScoreHit(env.target, env.scoring, c.centreDist, None);
    Hit(Warped(env, c).0, Warped(env, c).1, o.score, o.confidence, Probability(env, c))
  }

  /** Where the detection circle is drawn: the raw centroid, truncated. */
  function MarkOf(c: Candidate): (int, int)
    requires c.m00 != 0.0
  {
    (Trunc(CentroidX(c)), Trunc(CentroidY(c)))
  }

  /** The body of the contour loop for one contour. */
  function Examine(env: Env, c: Candidate, hits: seq<Hit>, cooldown: int): (v: Verdict)
    requires Measured(env, c)
    ensures v.Accept? <==> cooldown <= 0 && Admissible(env, c, hits)
    ensures v.Raise? <==> cooldown <= 0 && PreScoreGates(env, c, hits)
                          && ScoreHit(env.target, env.scoring, c.centreDist, None).MissingBullHoleKey?
    ensures v.Accept? ==> v.hit == HitOf(env, c) && v.mark == MarkOf(c)
    ensures v.Accept? ==> 0.5 <= v.hit.confidence <= 1.0
                          && env.detection.minConfidence <= v.hit.aiProb <= Classifier.Ceiling
  {
    if c.area < env.detection.minArea then Skip
    else if c.area > env.detection.maxArea then Skip
    else if c.m00 == 0.0 then Skip
    else
      var x0, y0 := CropX(c), CropY(c);
      if !CropInside(env, x0, y0) then Skip
      else if Features(env, c, x0, y0).rows != CropSize || Features(env, c, x0, y0).cols != CropSize then Skip
      else
        var prob := Probability(env, c);
        if prob < env.detection.minConfidence then Skip
        else
          var w := Warped(env, c);
          if TooClose(hits, w.0, w.1) then Skip
          else if cooldown > 0 then Skip
          else match ScoreHit(env.target, env.scoring, c.centreDist, None)
            case NoScore => Skip
            case MissingBullHoleKey => Raise
            case Scored(score, conf) =>
              if conf < 0.5 then Skip
              else Accept(Hit(w.0, w.1, score, conf, prob), MarkOf(c))
  }

  /** The crop-shape test of line 151 never fails once line 146 has passed. */
  lemma CropShapeFollowsBounds(env: Env, x0: int, y0: int)
    requires CropInside(env, x0, y0)
    ensures SliceLen(y0, env.height) == CropSize && SliceLen(x0, env.width) == CropSize
  {
  }

  /** The state the contour loop threads: the hit list, the cooldown,
      whether the KeyError was raised, and (for the proofs) which contours
      were accepted and where their circles were drawn. */
  datatype Pass = Pass(hits: seq<Hit>, cooldown: int, raised: bool, accepted: seq<nat>, marks: seq<(int, int)>)

  /** One turn of the contour loop on contour number `j`. */
  function Step(env: Env, p: Pass, c: Candidate, j: nat): Pass
    requires Measured(env, c)
  {
    if p.raised then p
    else match Examine(env, c, p.hits, p.cooldown)
      case Skip => p
      case Raise => p.(raised := true)
      case Accept(hit, m) => Pass(p.hits + [hit], env.detection.cooldownFrames, false, p.accepted + [j], p.marks + [m])
  }

  /** The contour loop over `cands`, from state `start`. */
  function Scan(env: Env, cands: seq<Candidate>, start: Pass): (p: Pass)
    requires forall i :: 0 <= i < |cands| ==> Measured(env, cands[i])
    ensures |start.hits| <= |p.hits| && p.hits[..|start.hits|] == start.hits
  {
    if cands == [] then start
    else Step(env, Scan(env, cands[..|cands| - 1], start), cands[|cands| - 1], |cands| - 1)
  }

  /** Scan over one more contour is one more Step. */
  lemma ScanStep(env: Env, cands: seq<Candidate>, i: nat, start: Pass)
    requires i < |cands|
    requires forall k :: 0 <= k < |cands| ==> Measured(env, cands[k])
    ensures Scan(env, cands[..i + 1], start) == Step(env, Scan(env, cands[..i], start), cands[i], i)
  {
    assert cands[..i + 1][..i] == cands[..i];
  }

  /** The loop state at the start of a detecting frame. */
  function Begin(hits: seq<Hit>, cooldown: int): Pass
  {
    Pass(hits, cooldown, false, [], [])
  }

  /** The contour loop only appends: earlier hits keep their values and
      order, one hit and one mark per accepted contour, and contours are
      accepted in increasing order. */
  lemma {:induction false} ScanAppends(env: Env, cands: seq<Candidate>, hits0: seq<Hit>, cd0: int)
    requires forall i :: 0 <= i < |cands| ==> Measured(env, cands[i])
    ensures var p := Scan(env, cands, Begin(hits0, cd0));
      && |p.hits| == |hits0| + |p.accepted| && p.hits[..|hits0|] == hits0
      && |p.marks| == |p.accepted|
      && (forall k :: 0 <= k < |p.accepted| ==> p.accepted[k] < |cands|)
      && (forall k, m :: 0 <= k < m < |p.accepted| ==> p.accepted[k] < p.accepted[m])
  {
    if cands != [] {
      var n := |cands| - 1;
      var prefix := cands[..n];
      assert forall i :: 0 <= i < n ==> prefix[i] == cands[i];
      ScanAppends(env, prefix, hits0, cd0);
      StepFacts(env, Scan(env, prefix, Begin(hits0, cd0)), cands[n], n);
    }
  }

  /** Contour `j`, accepted as the `k`-th new hit, passed every gate against
      the hits before it, and its hit and mark are the ones recorded. */
  predicate AcceptedWell(env: Env, cands: seq<Candidate>, hits0: seq<Hit>, p: Pass, k: nat)
    requires forall i :: 0 <= i < |cands| ==> Measured(env, cands[i])
    requires |p.hits| == |hits0| + |p.accepted| && |p.marks| == |p.accepted|
    requires k < |p.accepted| && p.accepted[k] < |cands|
  {
    && Admissible(env, cands[p.accepted[k]], p.hits[..|hits0| + k])
    && p.hits[|hits0| + k] == HitOf(env, cands[p.accepted[k]])
    && p.marks[k] == MarkOf(cands[p.accepted[k]])
  }

  /** Every hit the contour loop appends comes from a contour that passed
      every gate: area bounds, non-zero m00, crop inside the frame,
      classifier probability, no duplicate among the hits before it, a score
      with confidence at least 0.5. */
  lemma {:induction false} ScanAcceptsOnlyAdmissible(env: Env, cands: seq<Candidate>, hits0: seq<Hit>, cd0: int)
    requires forall i :: 0 <= i < |cands| ==> Measured(env, cands[i])
    ensures var p := Scan(env, cands, Begin(hits0, cd0));
      && |p.hits| == |hits0| + |p.accepted| && |p.marks| == |p.accepted|
      && (forall k :: 0 <= k < |p.accepted| ==> p.accepted[k] < |cands|)
      && (forall k :: 0 <= k < |p.accepted| ==> AcceptedWell(env, cands, hits0, p, k))
  {
    ScanAppends(env, cands, hits0, cd0);
    if cands != [] {
      var n := |cands| - 1;
      var prefix := cands[..n];
      assert forall i :: 0 <= i < n ==> prefix[i] == cands[i];
      ScanAcceptsOnlyAdmissible(env, prefix, hits0, cd0);
      ScanAppends(env, prefix, hits0, cd0);
      var q := Scan(env, prefix, Begin(hits0, cd0));
      StepFacts(env, q, cands[n], n);
      ExtendAcceptedWell(env, cands, prefix, hits0, q, Scan(env, cands, Begin(hits0, cd0)));
    }
  }

  /** What ScanAcceptsOnlyAdmissible states, carried over one turn of the
      loop on the last contour: either it appended that contour's hit and
      mark, having found it admissible, or it appended nothing. */
  lemma ExtendAcceptedWell(env: Env, cands: seq<Candidate>, prefix: seq<Candidate>, hits0: seq<Hit>, q: Pass, p: Pass)
    requires cands != [] && forall i :: 0 <= i < |cands| ==> Measured(env, cands[i])
    requires prefix == cands[..|cands| - 1]
    requires |q.hits| == |hits0| + |q.accepted| && |q.marks| == |q.accepted|
    requires forall k :: 0 <= k < |q.accepted| ==> q.accepted[k] < |cands| - 1
    requires forall k :: 0 <= k < |q.accepted| ==> AcceptedWell(env, prefix, hits0, q, k)
    requires var c := cands[|cands| - 1];
      || (&& Admissible(env, c, q.hits) && c.m00 != 0.0
          && p.hits == q.hits + [HitOf(env, c)] && p.accepted == q.accepted + [|cands| - 1]
          && p.marks == q.marks + [MarkOf(c)])
      || (p.hits == q.hits && p.accepted == q.accepted && p.marks == q.marks)
    ensures |p.hits| == |hits0| + |p.accepted| && |p.marks| == |p.accepted|
    ensures forall k :: 0 <= k < |p.accepted| ==> p.accepted[k] < |cands|
    ensures forall k :: 0 <= k < |p.accepted| ==> AcceptedWell(env, cands, hits0, p, k)
  {
    forall k | 0 <= k < |p.accepted| ensures AcceptedWell(env, cands, hits0, p, k) {
      if k < |q.accepted| {
        KeepsAcceptedWell(env, cands, prefix, hits0, q, p, k);
      } else {
        assert p.hits[..|hits0| + k] == q.hits;
      }
    }
  }

  /** One turn of the loop either appends the admissible contour's hit and
      mark, or leaves the hits, acceptances and marks alone. */
  lemma StepFacts(env: Env, q: Pass, c: Candidate, n: nat)
    requires Measured(env, c)
    ensures var p := Step(env, q, c, n);
      if !q.raised && Examine(env, c, q.hits, q.cooldown).Accept? then
        && Admissible(env, c, q.hits) && c.m00 != 0.0
        && p.hits == q.hits + [HitOf(env, c)] && p.accepted == q.accepted + [n]
        && p.marks == q.marks + [MarkOf(c)]
      else
        p.hits == q.hits && p.accepted == q.accepted && p.marks == q.marks
  {
  }

  /** An earlier acceptance stays justified when the loop goes on: the hits
      before it and the contour it came from are unchanged. */
  lemma KeepsAcceptedWell(env: Env, cands: seq<Candidate>, prefix: seq<Candidate>, hits0: seq<Hit>, q: Pass, p: Pass, k: nat)
    requires forall i :: 0 <= i < |cands| ==> Measured(env, cands[i])
    requires |prefix| <= |cands| && forall i :: 0 <= i < |prefix| ==> prefix[i] == cands[i]
    requires |q.hits| == |hits0| + |q.accepted| && |q.marks| == |q.accepted|
    requires |p.hits| == |hits0| + |p.accepted| && |p.marks| == |p.accepted|
    requires k < |q.accepted| <= |p.accepted|
    requires q.accepted[k] < |prefix|
    requires p.accepted[k] == q.accepted[k] && p.marks[k] == q.marks[k]
    requires p.hits[..|q.hits|] == q.hits
    requires AcceptedWell(env, prefix, hits0, q, k)
    ensures AcceptedWell(env, cands, hits0, p, k)
  {
    assert p.hits[..|hits0| + k] == q.hits[..|hits0| + k];
    assert p.hits[|hits0| + k] == q.hits[|hits0| + k];
  }

  /** The cooldown inside the loop: unchanged until the first acceptance,
      then the configured frame count. */
  lemma {:induction false} ScanCooldown(env: Env, cands: seq<Candidate>, hits0: seq<Hit>, cd0: int)
    requires forall i :: 0 <= i < |cands| ==> Measured(env, cands[i])
    ensures var p := Scan(env, cands, Begin(hits0, cd0));
      && (|p.accepted| == 0 ==> p.cooldown == cd0)
      && (|p.accepted| > 0 ==> p.cooldown == env.detection.cooldownFrames)
  {
    if cands != [] {
      var prefix := cands[..|cands| - 1];
      assert forall i :: 0 <= i < |prefix| ==> prefix[i] == cands[i];
      ScanCooldown(env, prefix, hits0, cd0);
    }
  }

  /** With a cooldown of at least one frame, a frame appends at most one
      hit, and none at all while a cooldown is running. */
  lemma {:induction false} AtMostOneHitPerFrame(env: Env, cands: seq<Candidate>, hits0: seq<Hit>, cd0: int)
    requires forall i :: 0 <= i < |cands| ==> Measured(env, cands[i])
    requires env.detection.cooldownFrames >= 1
    ensures |Scan(env, cands, Begin(hits0, cd0)).accepted| <= 1
    ensures cd0 > 0 ==> Scan(env, cands, Begin(hits0, cd0)).accepted == []
  {
    if cands != [] {
      var n := |cands| - 1;
      var prefix := cands[..n];
      assert forall i :: 0 <= i < n ==> prefix[i] == cands[i];
      AtMostOneHitPerFrame(env, prefix, hits0, cd0);
      ScanCooldown(env, prefix, hits0, cd0);
    }
  }

  /** Once raised, the exception ends the loop: later contours change
      nothing. */
  lemma {:induction false} RaisedStays(env: Env, cands: seq<Candidate>, i: nat, start: Pass)
    requires i <= |cands|
    requires forall k :: 0 <= k < |cands| ==> Measured(env, cands[k])
    requires Scan(env, cands[..i], start).raised
    ensures Scan(env, cands, start) == Scan(env, cands[..i], start)
    decreases |cands| - i
  {
    if i < |cands| {
      var next := cands[..i + 1];
      assert next[..i] == cands[..i];
      assert forall k :: 0 <= k < |next| ==> next[k] == cands[k];
      RaisedStays(env, cands, i + 1, start);
    } else {
      assert cands[..i] == cands;
    }
  }

  /** Lines 201-202: one frame of cooldown elapses. */
  function Decrement(cooldown: int): (c: int)
    ensures cooldown >= 0 ==> c >= 0 && c == (if cooldown > 0 then cooldown - 1 else 0)
    ensures cooldown < 0 ==> c == cooldown
  {
    if cooldown > 0 then cooldown - 1 else cooldown
  }

  /** After a detecting frame the cooldown is never negative when the
      configured frame count is not. */
  lemma CooldownNonNegative(env: Env, cands: seq<Candidate>, hits0: seq<Hit>, cd0: int)
    requires forall i :: 0 <= i < |cands| ==> Measured(env, cands[i])
    requires cd0 >= 0 && env.detection.cooldownFrames >= 0
    ensures Decrement(Scan(env, cands, Begin(hits0, cd0)).cooldown) >= 0
  {
    ScanCooldown(env, cands, hits0, cd0);
  }

  /** Pixel (row r, column c) lies in the filled radius-20 disk drawn around
      one of `recent`. */
  predicate NearHit(recent: seq<Hit>, r: int, c: int)
  {
    exists k :: 0 <= k < |recent| && Sq(c - recent[k].x) + Sq(r - recent[k].y) <= 400
  }

  predicate SameShape<P, Q>(a: Image<P>, b: Image<Q>)
  {
    |a| == |b| && forall r :: 0 <= r < |a| ==> |a[r]| == |b[r]|
  }

  /** A non-empty rectangular image. */
  predicate Rectangular<P>(img: Image<P>)
  {
    |img| > 0 && forall r :: 0 <= r < |img| ==> |img[r]| == |img[0]|
  }

  /** np.where(mask > 0, latest, prev) with the mask blacked out around the
      recent hits: pixels near a recent hit keep the old baseline, all others
      take the new frame. */
  function Merge<P>(latest: Image<P>, prev: Image<P>, recent: seq<Hit>): (m: Image<P>)
    requires SameShape(latest, prev)
    ensures SameShape(m, latest)
    ensures forall r, c :: 0 <= r < |m| && 0 <= c < |m[r]| ==>
      m[r][c] == if NearHit(recent, r, c) then prev[r][c] else latest[r][c]
  {
    seq(|latest|, r requires 0 <= r < |latest| =>
      seq(|latest[r]|, c requires 0 <= c < |latest[r]| =>
        if NearHit(recent, r, c) then prev[r][c] else latest[r][c]))
  }

  /** The frame with a detection circle drawn at each mark, in order. */
  function Annotate(frame: Image<Colour>, marks: seq<(int, int)>,
                    mark: (Image<Colour>, (int, int)) -> Image<Colour>): (img: Image<Colour>)
    ensures KeepsShape(mark) ==> SameShape(img, frame)
  {
    if marks == [] then frame
    else mark(Annotate(frame, marks[..|marks| - 1], mark), marks[|marks| - 1])
  }

  /** Drawing one more circle is one more call of `mark`. */
  lemma AnnotateAppend(frame: Image<Colour>, marks: seq<(int, int)>, m: (int, int),
                       mark: (Image<Colour>, (int, int)) -> Image<Colour>)
    ensures Annotate(frame, marks + [m], mark) == mark(Annotate(frame, marks, mark), m)
  {
    assert (marks + [m])[..|marks|] == marks;
  }

  /** Drawing never changes an image's shape. */
  ghost predicate KeepsShape(mark: (Image<Colour>, (int, int)) -> Image<Colour>)
  {
    forall img: Image<Colour>, p: (int, int) :: SameShape(mark(img, p), img)
  }

  /** The heatmap cells (row, column) registered for new hits. */
  function HeatPoints(newHits: seq<Hit>): seq<(int, int)>
  {
    seq(|newHits|, k requires 0 <= k < |newHits| => (newHits[k].y, newHits[k].x))
  }

  /** The cooldown stays within the configured frame count. */
  predicate CooldownInRange(cooldown: int, frames: int)
  {
    cooldown == frames || 0 <= cooldown <= (if frames > 0 then frames else 0)
  }

  /** The loop state after one more contour, given what its gates decided. */
  function After(env: Env, p: Pass, v: Verdict, j: nat): Pass
  {
    match v
    case Skip => p
    case Raise => p.(raised := true)
    case Accept(hit, m) => Pass(p.hits + [hit], env.detection.cooldownFrames, false, p.accepted + [j], p.marks + [m])
  }

  /** One turn of the contour loop, from a state that has not raised: Scan
      over one more contour moves the state by the verdict on that contour. */
  lemma ScanTurn(env: Env, cands: seq<Candidate>, i: nat, start: Pass, p: Pass, v: Verdict)
    requires i < |cands|
    requires forall k :: 0 <= k < |cands| ==> Measured(env, cands[k])
    requires Scan(env, cands[..i], start) == p && !p.raised
    requires v == Examine(env, cands[i], p.hits, p.cooldown)
    ensures Scan(env, cands[..i + 1], start) == After(env, p, v, i)
  {
    ScanStep(env, cands, i, start);
  }

  lemma HeatPointsAppend(hits: seq<Hit>, hit: Hit, n: nat)
    requires n <= |hits|
    ensures HeatPoints((hits + [hit])[n..]) == HeatPoints(hits[n..]) + [(hit.y, hit.x)]
  {
    assert (hits + [hit])[n..] == hits[n..] + [hit];
  }

  class Detector {
    const scoring: ScoringConfig
    const detection: DetectionConfig
    var detectActive: bool
    var hits: seq<Hit>
    var shotCooldown: int
    var baseline: map<CamId, Image<int>>
    var baselineColor: map<CamId, Image<Colour>>

    /** Both baselines exist for the same cameras, every hit passed the
        confidence gates, and the cooldown is 0..cooldown frames. */
    ghost predicate Valid()
      reads this
    {
      && baseline.Keys == baselineColor.Keys
      && (forall k :: 0 <= k < |hits| ==>
            0.5 <= hits[k].confidence <= 1.0 && detection.minConfidence <= hits[k].aiProb <= Classifier.Ceiling)
      && CooldownInRange(shotCooldown, detection.cooldownFrames)
    }

    constructor (scoring: ScoringConfig, detection: DetectionConfig)
      ensures Valid()
      ensures this.scoring == scoring && this.detection == detection
      ensures !detectActive && hits == [] && shotCooldown == 0 && baseline == map[] && baselineColor == map[]
    {
      this.scoring := scoring;
      this.detection := detection;
      detectActive := false;
      hits := [];
      shotCooldown := 0;
      baseline := map[];
      baselineColor := map[];
    }

    /** toggle_detection: turning off forgets the hits and both baselines;
        turning on changes nothing else. */
    method ToggleDetection() returns (active: bool)
      requires Valid()
      modifies this
      ensures Valid()
      ensures detectActive == !old(detectActive) && active == detectActive
      ensures !detectActive ==> hits == [] && baseline == map[] && baselineColor == map[]
      ensures detectActive ==> hits == old(hits) && baseline == old(baseline) && baselineColor == old(baselineColor)
      ensures shotCooldown == old(shotCooldown)
    {
      detectActive := !detectActive;
      if !detectActive {
        hits := [];
        baseline := map[];
        baselineColor := map[];
      }
      active := detectActive;
    }

    /** reset_hits: only the hit list is emptied. */
    method ResetHits()
      requires Valid()
      modifies this
      ensures Valid()
      ensures hits == []
      ensures detectActive == old(detectActive) && shotCooldown == old(shotCooldown)
      ensures baseline == old(baseline) && baselineColor == old(baselineColor)
    {
      hits := [];
    }

    /** get_hits: every hit on the list passed the gates' confidence tests. */
    function GetHits(): (hs: seq<Hit>)
      reads this
      requires Valid()
      ensures forall k :: 0 <= k < |hs| ==> 0.5 <= hs[k].confidence <= 1.0
      ensures forall k :: 0 <= k < |hs| ==> detection.minConfidence <= hs[k].aiProb <= Classifier.Ceiling
    {
      hits
    }

    /** The duplicate check of lines 164-168: a scan of the last five hits
        that stops at the first one closer than 10 pixels. */
    static method IsDuplicate(hits: seq<Hit>, x: int, y: int) returns (tooClose: bool)
      ensures tooClose <==> TooClose(hits, x, y)
    {
      var recent := LastN(hits, RecentHits);
      for k := 0 to |recent|
        invariant forall m :: 0 <= m < k ==> !CloseTo(recent[m], x, y)
      {
        if Sq(x - recent[k].x) + Sq(y - recent[k].y) < 100 {
          return true;
        }
      }
      return false;
    }

    /** One pass of the contour loop's body (lines 126-182). */
    static method ExamineCandidate(env: Env, c: Candidate, hits: seq<Hit>, cooldown: int) returns (v: Verdict)
      requires Measured(env, c)
      ensures v == Examine(env, c, hits, cooldown)
    {
      if c.area < env.detection.minArea || c.area > env.detection.maxArea || c.m00 == 0.0 {
        return Skip;
      }
      var x, y := c.m10 / c.m00, c.m01 / c.m00;
      var x0, y0 := Trunc(x - 8.0), Trunc(y - 8.0);
      if x0 < 0 || y0 < 0 || x0 + CropSize >= env.width || y0 + CropSize >= env.height {
        return Skip;
      }
      var features := Features(env, c, x0, y0);
      if features.rows != CropSize || features.cols != CropSize {
        return Skip;
      }
      var prob := Classifier.ClassifyHit(features);
      if prob < env.detection.minConfidence {
        return Skip;
      }
      var w := WarpPoint(env.homography, x, y, c.projected);
      var tooClose := IsDuplicate(hits, w.0, w.1);
      if tooClose || cooldown > 0 {
        return Skip;
      }
      var outcome := ScoreHit(env.target, env.scoring, c.centreDist, None);
      match outcome
      case NoScore => v := Skip;
      case MissingBullHoleKey => v := Raise;
      case Scored(score, conf) =>
        if conf < 0.5 {
          v := Skip;
        } else {
          v := Accept(Hit(w.0, w.1, score, conf, prob), (Trunc(x), Trunc(y)));
        }
    }

    /** Lines 184-198 for an accepted hit: append it, count it into the
        heatmap, and start the cooldown. */
    method RecordHit(hit: Hit, heat: Heatmap.Grid)
      requires Valid() && heat.Valid()
      requires 0.5 <= hit.confidence <= 1.0 && detection.minConfidence <= hit.aiProb <= Classifier.Ceiling
      modifies this, heat, heat.heat
      ensures Valid() && heat.Valid() && heat.heat == old(heat.heat)
      ensures hits == old(hits) + [hit] && shotCooldown == detection.cooldownFrames
      ensures heat.registered == old(heat.registered) + [(hit.y, hit.x)]
      ensures baseline == old(baseline) && baselineColor == old(baselineColor) && detectActive == old(detectActive)
    {
      hits := hits + [hit];
      TruncWhole(hit.x);
      TruncWhole(hit.y);
      heat.RegisterHit(hit.x as real, hit.y as real);
      shotCooldown := detection.cooldownFrames;
    }

    /** The contour loop of lines 125-198 over `cands`, from the current
        hits and cooldown; accepted hits are counted into `heat` and marked
        on the frame. */
    method ScanContours(env: Env, cands: seq<Candidate>, heat: Heatmap.Grid,
                        frame: Image<Colour>, mark: (Image<Colour>, (int, int)) -> Image<Colour>)
      returns (raised: bool, annotated: Image<Colour>)
      requires Valid() && heat.Valid()
      requires env.scoring == scoring && env.detection == detection
      requires forall i :: 0 <= i < |cands| ==> Measured(env, cands[i])
      modifies this, heat, heat.heat
      ensures Valid() && heat.Valid() && heat.heat == old(heat.heat)
      ensures var p := Scan(env, cands, Begin(old(hits), old(shotCooldown)));
        && hits == p.hits && shotCooldown == p.cooldown && raised == p.raised
        && annotated == Annotate(frame, p.marks, mark)
        && heat.registered == old(heat.registered) + HeatPoints(p.hits[|old(hits)|..])
      ensures baseline == old(baseline) && baselineColor == old(baselineColor) && detectActive == old(detectActive)
    {
      ghost var start := Begin(hits, shotCooldown);
      ghost var hits0 := hits;
      ghost var registered0 := heat.registered;
      ghost var accepted: seq<nat> := [];
      ghost var marks: seq<(int, int)> := [];
      annotated := frame;
      for i := 0 to |cands|
        invariant Scan(env, cands[..i], start) == Pass(hits, shotCooldown, false, accepted, marks)
        invariant annotated == Annotate(frame, marks, mark)
        invariant heat.heat == old(heat.heat)
        invariant heat.Valid() && heat.registered == registered0 + HeatPoints(hits[|hits0|..])
        invariant Valid()
        invariant baseline == old(baseline) && baselineColor == old(baselineColor) && detectActive == old(detectActive)
      {
        var v := ExamineCandidate(env, cands[i], hits, shotCooldown);
        ScanTurn(env, cands, i, start, Pass(hits, shotCooldown, false, accepted, marks), v);
        match v
        case Skip =>
        case Raise =>
          RaisedStays(env, cands, i + 1, start);
          return true, annotated;
        case Accept(hit, m) =>
          HeatPointsAppend(hits, hit, |hits0|);
          AnnotateAppend(frame, marks, m, mark);
          RecordHit(hit, heat);
          annotated := mark(annotated, m);
          accepted := accepted + [i];
          marks := marks + [m];
      }
      assert cands[..|cands|] == cands;
      raised := false;
    }

    /** Lines 204-223: the baseline update policy after the cooldown has
        been decremented. */
    method UpdateBaselines(cam: CamId, gray: Image<int>, annotated: Image<Colour>)
      requires cam in baseline && cam in baselineColor
      requires SameShape(baseline[cam], gray) && SameShape(baselineColor[cam], gray) && SameShape(annotated, gray)
      modifies this
      ensures hits == old(hits) && shotCooldown == old(shotCooldown) && detectActive == old(detectActive)
      ensures shotCooldown == 0 && detection.mode == Selective ==>
        && baseline == old(baseline)[cam := Merge(gray, old(baseline)[cam], LastN(hits, RecentHits))]
        && baselineColor == old(baselineColor)[cam := Merge(annotated, old(baselineColor)[cam], LastN(hits, RecentHits))]
      ensures !(shotCooldown == 0 && detection.mode == Selective) && detection.mode == Always ==>
        baseline == old(baseline)[cam := gray] && baselineColor == old(baselineColor)[cam := annotated]
      ensures !(shotCooldown == 0 && detection.mode == Selective) && detection.mode != Always ==>
        baseline == old(baseline) && baselineColor == old(baselineColor)
    {
      if shotCooldown == 0 && detection.mode == Selective {
        var recent := LastN(hits, RecentHits);
        baseline := baseline[cam := Merge(gray, baseline[cam], recent)];
        baselineColor := baselineColor[cam := Merge(annotated, baselineColor[cam], recent)];
      } else if detection.mode == Always {
        baseline := baseline[cam := gray];
        baselineColor := baselineColor[cam := annotated];
      }
    }

    /** process_frame for camera `cam`.  `frame` and `gray` are the blurred
        colour frame and its grey version; `cands` are the contours of the
        thresholded difference image; `target` and `homography` are the
        calibration at this moment; hits are counted into `heat`. */
    method ProcessFrame(frame: Image<Colour>, gray: Image<int>, cam: CamId, cands: seq<Candidate>,
                        target: Target, homography: Option<Homography>,
                        heat: Heatmap.Grid, mark: (Image<Colour>, (int, int)) -> Image<Colour>)
      returns (result: FrameResult)
      requires Valid() && heat.Valid()
      requires Rectangular(gray) && SameShape(frame, gray) && KeepsShape(mark)
      requires cam in baseline ==> SameShape(baseline[cam], gray) && SameShape(baselineColor[cam], gray)
      requires forall i :: 0 <= i < |cands| ==>
        Measured(Env(target, homography, scoring, detection, |gray[0]|, |gray|), cands[i])
      modifies this, heat, heat.heat
      ensures Valid() && heat.Valid() && detectActive == old(detectActive)
      // Lines 79-88: first frame of a camera, or detection off.
      ensures cam !in old(baseline) || !old(detectActive) ==>
        && result == Overlay(frame)
        && baseline == old(baseline)[cam := gray] && baselineColor == old(baselineColor)[cam := frame]
        && hits == old(hits) && shotCooldown == old(shotCooldown)
        && heat.registered == old(heat.registered)
      // Lines 90-225: a detecting frame.
      ensures cam in old(baseline) && old(detectActive) ==>
        var env := Env(target, homography, scoring, detection, |gray[0]|, |gray|);
        var p := Scan(env, cands, Begin(old(hits), old(shotCooldown)));
        var annotated := Annotate(frame, p.marks, mark);
        && hits == p.hits
        && heat.registered == old(heat.registered) + HeatPoints(p.hits[|old(hits)|..])
        && (p.raised ==>
              && result == KeyErrorRaised && shotCooldown == p.cooldown
              && baseline == old(baseline) && baselineColor == old(baselineColor))
        && (!p.raised ==>
              && result == Overlay(annotated)
              && shotCooldown == Decrement(p.cooldown)
              && (shotCooldown == 0 && detection.mode == Selective ==>
                    && baseline == old(baseline)[cam := Merge(gray, old(baseline)[cam], LastN(hits, RecentHits))]
                    && baselineColor == old(baselineColor)[cam := Merge(annotated, old(baselineColor)[cam], LastN(hits, RecentHits))])
              && (!(shotCooldown == 0 && detection.mode == Selective) && detection.mode == Always ==>
                    baseline == old(baseline)[cam := gray] && baselineColor == old(baselineColor)[cam := annotated])
              && (!(shotCooldown == 0 && detection.mode == Selective) && detection.mode != Always ==>
                    baseline == old(baseline) && baselineColor == old(baselineColor)))
    {
      if cam !in baseline || !detectActive {
        baseline := baseline[cam := gray];
        baselineColor := baselineColor[cam := frame];
        return Overlay(frame);
      }
      var env := Env(target, homography, scoring, detection, |gray[0]|, |gray|);
      ghost var p := Scan(env, cands, Begin(hits, shotCooldown));
      var raised, annotated := ScanContours(env, cands, heat, frame, mark);
      assert hits == p.hits && raised == p.raised && annotated == Annotate(frame, p.marks, mark);
      if raised {
        return KeyErrorRaised;
      }
      if shotCooldown > 0 {
        shotCooldown := shotCooldown - 1;
      }
      UpdateBaselines(cam, gray, annotated);
      result := Overlay(annotated);
    }
  }
}
