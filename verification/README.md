# air-target-basic core, modelled in Dafny

air-target-basic is an air-rifle target scoring system. Cameras watch a paper
bell target (NARPA rules). It finds new pellet holes by comparing each frame
with a per-camera background baseline. A rule-based classifier filters the
candidate holes. Each hole is warped into target space through an optional
homography and scored by its distance from the calibrated centre. Each
accepted hit is also counted into a heatmap. The instant-replay buffer and the
per-round shot archive are separate components: other parts of the program
hand them frames and shots.

The project models that core, one Dafny module per source file:

| module | source | form |
|---|---|---|
| `Common` | (shared) | Python's `int()` on floats, `round()`, `None`, the last-n suffix of a list, a witness for `math.dist` |
| `Calibration` | calibration.py | datatypes plus a `Store` class holding the target, the homography and its quality |
| `Scoring` | scoring.py | functions and lemmas: distance to score and confidence, round statistics (with a counting loop), the split-shot test |
| `Classifier` | ai_classifier.py | functions and lemmas: the hole-probability rule |
| `Heatmap` | heatmap.py | a `Grid` class over a 720 x 1280 `array2` of counts |
| `Replay` | replay.py | a `Recorder` class: a 30-frame bounded buffer and per-shot snapshots |
| `TargetDetection` | target_detection.py | sort-by-radius and bull/rings split, plus a `Detector` class keeping the last geometry |
| `Detection` | detection.py | a `Detector` class: the detect switch, hit list, shot cooldown, per-camera baselines, and `process_frame`'s contour loop, specified by a fold (`Scan`) over the contours |
| `ShotRecorder` | shot_recorder.py | a `Recorder` class holding the current round and its shot list, plus pure crop, grid and name-filtering arithmetic |

OpenCV, the clock and the file system are not modelled. What the program
would get from them is a parameter:
- a contour's area, moments, perimeter, rectangle and crop statistics;
- the perspective-transformed point and a point's distance from the centre;
- the Hough circles;
- a directory listing, the set of existing files, and the contents of a metadata file;
- the timestamp strings.

A distance that needs a square root is passed in together with a requirement
`IsDist(d, dx, dy)` (`d >= 0` and `d * d == dx * dx + dy * dy`).

Where the code and its own documentation disagree, the model follows the code:
- **Bull scale.** The bull-edge scale uses the 9.525 mm bull-hole diameter (`BULL_DIAM`), not a 25.4 mm bull (calibration.py:15, 44).
- **Toggling detection on.** It only flips the flag. It does not start a new round (detection.py:20-29).
- **Bull-hole bonus.** `score_hit` reads `t["bull_hole_px"]`, a key calibration never sets, so the enabled bonus raises `KeyError`. This is `ScoreOutcome.MissingBullHoleKey`. In `process_frame` it becomes `FrameResult.KeyErrorRaised`, which leaves the cooldown and the baselines as they were at that point (scoring.py:63).
- **Bonus unreachable from detection.** `process_frame` never passes `area`, so the bonus branch cannot fire from there (detection.py:178).
- **Global state.** The hit list and the cooldown are global, not per camera (detection.py:16-18).
- **Selective baseline mask.** The mask is drawn at the warped hit coordinates, although the baseline is in camera space (detection.py:208-211).
- **`set_shots_directory`.** It assigns a global `SHOTS_DIR` that nothing reads, so rounds keep being created under the old directory (shot_recorder.py:379-385). See "## Findings".

## Model

| member | source | states |
|---|---|---|
| Common.Trunc | calibration.py:119 | `int()` of a float drops the fraction toward zero, on both sides of zero |
| Common.TruncWhole | heatmap.py:21 | `int()` leaves a whole number unchanged, negative ones included |
| Common.Round2 | scoring.py:135 | `round(x, 2)` lies within half a hundredth of x |
| Common.Round1 | scoring.py:175 | `round(x, 1)` lies within half a tenth of x |
| Common.LastNStep | replay.py:3-7 | appending to a deque with maxlen n and keeping the last n of the full history give the same buffer |
| Calibration.BlendScale | calibration.py:43-56 | mm-per-pixel is 0.3 bull scale + 0.7 outer scale when both radii are positive, lies between the two, falls back to whichever exists, else 1.0; always positive |
| Calibration.RingRadiiPx | calibration.py:60-62 | four ring radii, each the physical radius over the scale, positive and strictly increasing |
| Calibration.Quality | calibration.py:75-77 | the inlier fraction lies in [0, 1] and is 1 exactly when every correspondence is an inlier |
| Calibration.WarpPoint | calibration.py:108-123 | without a homography the point is truncated toward zero; with one the projected point is |
| Calibration.WarpIdentity | calibration.py:118-119 | without a homography a whole-pixel point maps to itself |
| Calibration.WarpTruncatesTowardZero | calibration.py:119 | (-0.5, 2.5) maps to (0, 2): truncation, not flooring |
| Calibration.Store.constructor | calibration.py:5-12 | no centre, no rings, no scale, no homography, quality 0 |
| Calibration.Store.SetCalibration | calibration.py:18-89 | centre truncated, scale blended, ring radii derived from it; homography and quality replaced only when at least four point pairs are given, homography cleared when the fit fails; point lists of different lengths raise exactly when a fit is attempted, after the target is set and with homography and quality unchanged |
| Calibration.Store.GetTarget | calibration.py:126-128 | a returned target has a centre exactly when it has a scale, and four ring radii when calibrated, none otherwise |
| Calibration.Store.CalibrationQuality | calibration.py:131-133 | the quality lies in [0, 1] |
| Calibration.Store.ResetCalibration | calibration.py:136-147 | everything back to the uncalibrated state |
| Scoring.Confidence | scoring.py:116-117 | a non-positive boundary gives 0.5 |
| Scoring.ConfidenceRange | scoring.py:99-135 | confidence lies in [0.35, 1.0]; exactly 0.4 beyond 85 % of the boundary, 0.6 between 70 % and 85 %, at least 0.65 within 70 % |
| Scoring.TierRounding | scoring.py:125-135 | the rounded tiers keep their values and bounds |
| Scoring.ConfidenceMonotone | scoring.py:121-135 | moving the hit outward never raises the confidence |
| Scoring.ScoreHit | scoring.py:38-66 | no centre or no positive scale gives (None, 0.0); the enabled bonus on a target without the bull-hole key raises; every score comes with confidence in [0.35, 1.0] |
| Scoring.ToMm | scoring.py:56 | the distance in mm is non-negative |
| Scoring.ScoreDistance | scoring.py:73-96 | a distance always scores, with confidence in [0.35, 1.0] |
| Scoring.RingSearchFacts | scoring.py:83-96 | the ring search always yields a score with confidence in [0.35, 1.0] |
| Scoring.FirstEnclosingRing | scoring.py:83-93 | the innermost ring whose radius reaches the distance (inclusive) decides the score (4 - i, or 1 for the enabled outer ring) and the confidence |
| Scoring.BeyondAllRings | scoring.py:96 | outside every ring the result is exactly (0, 0.7) |
| Scoring.ScoreDistanceRule | scoring.py:73-96 | the whole rule: inside the bull (inclusive) scores 5, else the first enclosing ring, else (0, 0.7) |
| Scoring.ScoreHitByDistance | scoring.py:45-56 | without the bonus a calibrated target scores the pixel distance times the scale |
| Scoring.BullHoleBonus | scoring.py:63-66 | when the bonus applies the configured bonus score comes with confidence 1.0 |
| Scoring.SplitShotIff | scoring.py:227-234 | a shot is split exactly when its centre is closer to the boundary than the pellet radius |
| Scoring.HistogramCounts | scoring.py:158-166 | the histogram has the six standard buckets plus every bucket a score fell into, each holding the number of scores in it; 5.1 counts as 5, other scores by truncation |
| Scoring.StandardBucketsTotal | scoring.py:158-166 | when every score falls in 0..5 the six counts add up to the number of scores |
| Scoring.HistogramTotal | scoring.py:158-166 | for any scores, a sixth ring's -1 or a configured bull-hole score included, the counts over all the histogram's keys add up to the number of scores |
| Scoring.BullHolesCountedAsFive | scoring.py:162-164 | every bull hole is also counted in bucket 5 |
| Scoring.DistributionOf | scoring.py:148-179 | an empty round has total 0, zero counts and no maximum or percentage; otherwise the total is the shot count, the maximum 5 per shot, and buckets 0..5 are always present |
| Scoring.ScoreDistribution | scoring.py:138-179 | the counting loop computes exactly DistributionOf |
| Scoring.FormatRoundScore | scoring.py:182-209 | fails (KeyError) exactly for an empty round; lists every score, the maximum 5 per shot, a bull-hole line bounded by the fives, and the incomplete warning exactly when fewer shots than a round |
| Classifier.AspectRatio | ai_classifier.py:54-59 | at least 1 for a rectangle with positive sides, exactly 1 for a square |
| Classifier.AspectScore | ai_classifier.py:63 | in (0, 1], and 1 exactly for a square |
| Classifier.ContrastScore | ai_classifier.py:66 | in [0, 1], and 1 exactly from a standard deviation of 50 |
| Classifier.Combined | ai_classifier.py:62-76 | the weighted score is clamped to [0.35, 0.95] |
| Classifier.ClassifyHit | ai_classifier.py:4-76 | 0.0 for a crop that is not 16x16; 0.3 for low contrast; any other early rejection yields one of the rejection values 0.0, 0.3, 0.35; a contour passing every rejection scores in [0.35, 0.95]; always in [0, 0.95] |
| Classifier.AcceptanceNeedsRoundCandidate | ai_classifier.py:16-51 | any threshold above 0.35 is met only by a contour that passed every early rejection |
| Classifier.IdealHole | ai_classifier.py:62-76 | a round, square, high-contrast hole gets the ceiling 0.95 |
| Classifier.ContrastMonotone | ai_classifier.py:20-64 | more contrast never lowers the probability |
| Classifier.CircularityMonotone | ai_classifier.py:62-73 | higher circularity never lowers the weighted score |
| Heatmap.NormCellRange | heatmap.py:30-34 | display values lie in 0..255, the busiest cell shows 255, an empty grid shows 0, and a larger count never shows darker |
| Heatmap.Grid.constructor | heatmap.py:4-7 | a 720 x 1280 grid of zeros, display off |
| Heatmap.Grid.Toggle | heatmap.py:10-13 | the display flag flips and is returned; the counts are untouched |
| Heatmap.Grid.RegisterHit | heatmap.py:20-23 | the cell under the truncated point gains one if it is on the grid; no other cell changes; every cell counts the points registered on it |
| Heatmap.Grid.Reset | heatmap.py:37-38 | every cell is zero, in the same array |
| Heatmap.Grid.Peak | heatmap.py:32 | the largest count, held by some cell |
| Heatmap.Grid.Normalized | heatmap.py:30-34 | a fresh grid whose every cell is NormCell of its count against the peak count (the largest count, held by some cell): 0..255, 255 somewhere when any hit was counted, all zero otherwise, order-preserving |
| Replay.Recorder.constructor | replay.py:3-4 | empty buffer, no shots |
| Replay.Recorder.AddFrame | replay.py:6-7 | appends, dropping the oldest frame once 30 are held; the buffer is always the last 30 frames added |
| Replay.Recorder.RegisterShot | replay.py:9-10 | appends a snapshot of the current buffer |
| Replay.Recorder.GetShots | replay.py:12-13 | each clip is the last (at most) 30 frames before its shot, in registration order |
| TargetDetection.SortByRadius | target_detection.py:24 | an ascending-radius permutation of the circles |
| TargetDetection.Insert | target_detection.py:24 | one insertion step of the sort: an ascending list stays ascending and gains exactly the inserted circle |
| TargetDetection.InsertKeepsTies | target_detection.py:24 | inserting a circle puts it before the circles of its own radius and leaves every radius class in order |
| TargetDetection.SortIsStable | target_detection.py:24 | the sort is stable: the circles of any one radius keep their input order |
| TargetDetection.GeometryOf | target_detection.py:24-33 | the bull is circle 0 of the ascending sort, a smallest circle; the rings are the radii of sorted circles 1..4 (fewer when fewer were found), ascending, no smaller than the bull, each the radius of some detected circle |
| TargetDetection.RingsAreNextSmallest | target_detection.py:24-32 | independently of the sort: no circle is smaller than the bull, and at most i + 1 circles are smaller than ring i, so the rings are the next smallest radii |
| TargetDetection.BullIsFirstSmallest | target_detection.py:24-31 | on a tie for the smallest radius the bull, and so the centre, is the first such circle in the order the transform reported |
| TargetDetection.SingleCircleNoRings | target_detection.py:26-27 | a single circle is the bull with no rings |
| TargetDetection.Detector.constructor | target_detection.py:4 | no target geometry yet |
| TargetDetection.Detector.DetectTarget | target_detection.py:6-35 | no circles keeps the previous geometry; otherwise the geometry of the sorted circles; the stored geometry is returned |
| Detection.TenPixelsIsNotDuplicate | detection.py:164-171 | a hit exactly 10 pixels away is not a duplicate, one 9 pixels away is |
| Detection.Examine | detection.py:126-190 | a contour is accepted exactly when the cooldown is over and it passes area bounds, non-zero m00, crop inside the frame, classifier probability, no duplicate among the last five hits, a score and confidence at least 0.5; the KeyError exactly when the bonus key is missing after the other gates; an accepted hit has confidence in [0.5, 1] and probability at least the minimum |
| Detection.CropShapeFollowsBounds | detection.py:146-152 | once the bounds test passes, the crop is 16x16 |
| Detection.Scan | detection.py:125-198 | the contour loop as a fold over the contours; it never removes or changes a hit that was already listed |
| Detection.ScanAppends | detection.py:125-198 | the contour loop only appends: earlier hits keep value and order, one hit and one circle per accepted contour, in contour order |
| Detection.ScanAcceptsOnlyAdmissible | detection.py:125-198 | every hit the loop appends comes from a contour that passed every gate against the hits before it |
| Detection.ScanCooldown | detection.py:174-198 | the cooldown is unchanged until the first acceptance, then the configured frame count |
| Detection.AtMostOneHitPerFrame | detection.py:174-198 | with a cooldown of at least one frame, a frame adds at most one hit, and none while a cooldown runs |
| Detection.RaisedStays | detection.py:178 | once score_hit raises, later contours change nothing |
| Detection.Decrement | detection.py:201-202 | one frame of cooldown elapses, never below zero |
| Detection.CooldownNonNegative | detection.py:198-202 | after a detecting frame the cooldown is never negative |
| Detection.Merge | detection.py:207-218 | pixels within the radius-20 disks of the last five hits keep the old baseline, all others take the new frame |
| Detection.Annotate | detection.py:195 | drawing circles keeps the frame's shape |
| Detection.Detector.constructor | detection.py:14-18 | no baselines, no hits, detection off, cooldown 0 |
| Detection.Detector.ToggleDetection | detection.py:20-29 | the flag flips; turning off forgets the hits and both baselines, turning on changes nothing else |
| Detection.Detector.ResetHits | detection.py:32-34 | only the hit list is emptied |
| Detection.Detector.GetHits | detection.py:37-38 | every listed hit has confidence in [0.5, 1] and probability at least the minimum |
| Detection.Detector.IsDuplicate | detection.py:164-171 | the early-exit scan finds a hit closer than 10 pixels among the last five exactly when there is one |
| Detection.Detector.ExamineCandidate | detection.py:126-190 | the loop body computes exactly Examine |
| Detection.Detector.RecordHit | detection.py:184-198 | the hit is appended, registered in the heatmap, and the cooldown set |
| Detection.Detector.ScanContours | detection.py:125-198 | the contour loop leaves hits, cooldown, raised flag, circles drawn and heatmap registrations as Scan specifies |
| Detection.Detector.UpdateBaselines | detection.py:204-223 | selective merge when the cooldown is over in selective mode, full replacement in always mode, nothing otherwise |
| Detection.Detector.ProcessFrame | detection.py:71-225 | a camera's first frame or detection off replaces both baselines and detects nothing; otherwise the contour loop, then on success the cooldown decrement and the baseline policy, and on the KeyError nothing further |
| ShotRecorder.ImageNameIsNotMetadataName | shot_recorder.py:338-339 | a shot image is named "shot_..." but ends ".jpg", so the metadata filter never picks it |
| ShotRecorder.JoinPlacesName | shot_recorder.py:97 | `os.path.join` ends with the name and, for a relative name and a non-empty directory, starts with the directory |
| ShotRecorder.Pad2 | shot_recorder.py:96 | `{n:02d}` is two zero-filled digits for 0..99 |
| ShotRecorder.StrLeTotal | shot_recorder.py:314 | any two names compare one way or the other |
| ShotRecorder.StrLeTransitive | shot_recorder.py:314 | the name order is transitive |
| ShotRecorder.ShotNamesSortByNumber | shot_recorder.py:338-339 | shot files of shots 0..99 sort by shot number whatever their scores |
| ShotRecorder.SortNames | shot_recorder.py:314 | sorted, or sorted descending, and a permutation of the input |
| ShotRecorder.RoundDirs | shot_recorder.py:311-312 | keeps exactly the directories whose names start "round_" |
| ShotRecorder.ShotMetadataFiles | shot_recorder.py:338-339 | keeps exactly the names starting "shot_" and ending ".json" |
| ShotRecorder.ListRounds | shot_recorder.py:301-314 | a missing path gives []; a path that is a file raises; a directory gives exactly its round directories, a permutation of them, most recent name first |
| ShotRecorder.ShotFiles | shot_recorder.py:338-339 | exactly the shot metadata files, in ascending name order |
| ShotRecorder.CropWindowInFrame | shot_recorder.py:77-93 | for a shot inside the frame and a crop of at least 2, 0 <= x1 <= x < x2 <= w, the window is at most the crop size, and the padding is non-negative |
| ShotRecorder.NegativeBorderAsWritten | shot_recorder.py:77-93 | a shot more than half a crop outside the frame's left or top edge can make the padding negative |
| ShotRecorder.BorderInRange | shot_recorder.py:86-93 | with x2 clamped to x1 the padding lies in [0, crop size] wherever the shot is |
| ShotRecorder.BorderAgrees | shot_recorder.py:77-93 | the clamped window pads exactly as written whenever x2 is not negative |
| ShotRecorder.CropPadsIff | shot_recorder.py:86-93 | with the clamped window the crop is refused exactly for a negative crop size |
| ShotRecorder.CropPadsAsWrittenAgrees | shot_recorder.py:77-93 | every crop the code as written pads the clamped window pads too, and the two agree for a shot at most half a crop left of or above the frame |
| ShotRecorder.FarLeftShotRefused | shot_recorder.py:77-93 | x = -101 with a 200-pixel crop on a 1280-wide frame: the code as written asks for a border of -1079 and raises, where the clamped window pads |
| ShotRecorder.GridShape | shot_recorder.py:244-246 | cols = min(3, n) and rows is the least number of rows of cols that holds n shots |
| ShotRecorder.GridCellInside | shot_recorder.py:257-258 | shot i lands on a cell inside the grid |
| ShotRecorder.GridCellsDistinct | shot_recorder.py:257-258 | no two shots share a cell |
| ShotRecorder.PyPrefix | shot_recorder.py:159 | Python's `s[:k]` is a prefix of length k clipped to the list, or all but the last -k for negative k |
| ShotRecorder.LoadedEntries | shot_recorder.py:341-347 | one entry per metadata file, in order, keyed by the path its metadata records |
| ShotRecorder.Recorder.constructor | shot_recorder.py:11-14 | no round open and no shots |
| ShotRecorder.Recorder.StartNewRound | shot_recorder.py:26-42 | a round directory named after the timestamp under the shots directory, and an empty shot list |
| ShotRecorder.Recorder.RecordShot | shot_recorder.py:45-116 | recording off changes nothing and returns None; otherwise a round is opened if none is, the call fails exactly when a border of the crop window as the code computes it (x2 and y2 unclamped) is negative (keeping the list), and else exactly one entry is appended whose path is shot_NN_score_S.jpg in the round and whose metadata holds the shot, its number, the timestamp and that path |
| ShotRecorder.Recorder.GetShotImage | shot_recorder.py:119-138 | nothing for n < 1, n > count, or a missing file; otherwise entry n - 1, whose image path is the one its metadata records |
| ShotRecorder.Recorder.StackShots | shot_recorder.py:141-178 | the blended shots are a non-empty prefix of the list, every image readable, at the path its metadata records: all of them, or the first up_to; nothing for an empty list or selection; the error when a selected image cannot be read |
| ShotRecorder.Recorder.CleanTargetImage | shot_recorder.py:199-214 | the round's baseline.jpg exactly when a round is open and the file exists, nothing otherwise, never a stack |
| ShotRecorder.Recorder.UnstackShot | shot_recorder.py:181-196 | n <= 1 gives the clean target; 2 <= n <= count + 1 stacks exactly the first n - 1 shots, or raises when one cannot be read; a larger n stacks them all |
| ShotRecorder.Recorder.SaveBaseline | shot_recorder.py:217-230 | the baseline goes into the open round, opening one if needed, where get_clean_target_image finds it |
| ShotRecorder.Recorder.CreateRoundSummary | shot_recorder.py:233-282 | nothing exactly without shots or an open round; the error exactly when some shot image cannot be read; otherwise min(3, n) columns, ceil(n / cols) rows, one tile per shot at (i // cols, i % cols) inside the grid, no two sharing a cell, captioned green exactly for a score of at least 5 |
| ShotRecorder.Recorder.LoadRound | shot_recorder.py:317-350 | a missing path changes nothing and returns []; otherwise the round opens and the list is emptied, then a file raises and a directory's shots are its metadata files in name order |
| ShotRecorder.Recorder.EnableRecording | shot_recorder.py:367-376 | the recording flag is set, nothing else changes |
| ShotRecorder.Recorder.SetShotsDirectory | shot_recorder.py:379-385 | the open round is closed; the shots directory rounds are created in is unchanged |
| ShotRecorder.RoundAfterSetAsWritten | shot_recorder.py:379-385 | after set_shots_directory, the next start_new_round still creates the round under the old directory |
| ShotRecorder.SetDirectoryIgnored | shot_recorder.py:379-385 | a recorder on "shots" told to use "archive" opens its next round under "shots", not "archive" |
| ShotRecorder.Recorder.MoveShotsDirectory | shot_recorder.py:379-385 | corrected set_shots_directory: the open round is closed and the shots directory becomes the new one |
| ShotRecorder.RoundAfterMove | shot_recorder.py:379-385 | after the corrected operation, the next round is created under the new directory and ends with round_ and the timestamp |

## Findings

| source | as written | input that shows it | evidently intended | confidence | as-written member | corrected member |
|---|---|---|---|---|---|---|
| shot_recorder.py:79-93 | `x2 = min(w, x + crop_size // 2)` can be negative; `frame[y1:y2, x1:x2]` then counts it from the far edge, the slice is wider than the crop, and `copyMakeBorder` gets a negative border and raises | shot x = -101 with the default 200-pixel crop on a 1280-wide frame: x1 = 0, x2 = -1, slice width 1279, border 200 - 1279 = -1079 | an empty slice padded to a black crop_size square, as for a shot just outside the right or bottom edge | medium, not executed | ShotRecorder.NegativeBorderAsWritten | ShotRecorder.BorderInRange |
| shot_recorder.py:379-385 | `set_shots_directory` assigns the global `SHOTS_DIR`, which nothing else reads; `start_new_round`, `list_rounds` and `load_round` read `_shots_dir` (shot_recorder.py:36, 311, 329), so the new directory is ignored | a recorder on "shots" told to use "archive"; the next round opens as shots/round_<timestamp> | assign `_shots_dir`, so later rounds go under the new directory | high, not executed | ShotRecorder.SetDirectoryIgnored | ShotRecorder.RoundAfterMove |

`ShotRecorder.Recorder.RecordShot` follows the code as written: for such a
shot it reports the error (`BorderRefused`). `ShotRecorder.CropPadsAsWrittenAgrees`
relates the written window to the clamped one. A shot's x and y come from
warped target coordinates, which a homography can place left of or above the
frame.

`ShotRecorder.Recorder.SetShotsDirectory` likewise follows the code as
written. `ShotRecorder.Recorder.MoveShotsDirectory` is the corrected
operation, and `ShotRecorder.RoundAfterMove` proves that later rounds land
under the new directory.

## Left out

- OpenCV: blurring, thresholding, morphology, contours, moments, `classify_hit`'s Otsu pass, `HoughCircles`, `findHomography`, `perspectiveTransform`, drawing and `draw_overlay`. Their results are parameters.
- `detect_grey_marks` and the threshold pipeline (detection.py:41-123): image processing only. The contours they produce are the input `cands`.
- Floating point: reals stand for Python floats and float32. `round(x, n)` is modelled as round-half-up on exact reals, where Python rounds the binary double half-to-even.
- Common.Round2: states the rounding only up to half a unit, because ties fall differently on binary doubles.
- Heatmap.Grid.Normalized: integer division stands for float32 `(h / max) * 255` followed by a uint8 cast; float32 rounding can differ by one level.
- Heatmap.Grid: counts are unbounded integers rather than float32.
- Detection.Merge: the selective mask's disks are the lattice points within 20 pixels; OpenCV's disk rasterisation is not reproduced exactly.
- TargetDetection.GeometryOf: the `uint16(around(...))` conversion of the circles is done before the input; circles arrive as whole pixels.
- Detection.Detector.ProcessFrame: the caller supplies the drawing function `mark` and the contour measurements; hits are always whole pixels because `warp_point` truncates.
- `is_heatmap_enabled`, `get_heatmap` (heatmap.py:16-17, 26-27) and `get_round_statistics` (shot_recorder.py:285-298): plain getters and a report with no logic beyond a count.
- `calculate_reprojection_error` (calibration.py:92-105): it only feeds a printed message.
- `train_classifier` (ai_classifier.py:79-92): an empty stub.
- `init_shot_recorder`, `delete_round` and the file writes of `record_shot`, `save_baseline`, `create_round_summary` and `enable_recording`: directory creation, JSON, JPEG and config-file I/O.
- The pixels of `stack_shots` and `create_round_summary`: `addWeighted` blending, resizing and `putText`. Only which shots are used and where tiles go is modelled.
- ShotRecorder.Recorder.LoadRound: a metadata file without a "filepath" key (KeyError) is not modelled; `readMetadata` always yields one.
- ShotRecorder.Recorder.GetShotImage: returns the entry whose image would be read, not the image.
- ShotRecorder.Recorder.StackShots, ShotRecorder.Recorder.CreateRoundSummary: an image counts as readable exactly when its path is in `onDisk`; a file that exists but does not decode is one that is not in it.
- ShotRecorder.Recorder.RecordShot: a crop window that is empty (a shot beyond the right or bottom edge) is taken to be padded like any other; whether `copyMakeBorder` accepts an empty image is not modelled.
- Concurrency: the break-beam thread toggling detection during `process_frame` is not modelled.
- Aliasing: `get_hits`, `get_target` and `get_shots` return the live Python list or dictionary, and `load_round` returns the live `_shot_images` list (shot_recorder.py:350); the model returns values.
- Other files (app.py, camera.py, camera_manager.py, breakbeam.py, overlay.py, homography.py, the web front end) are not part of this model.
