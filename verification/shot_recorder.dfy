/** The per-round shot archive of shot_recorder.py: the list of recorded
    shots of the current round, the crop saved for each shot, the grid of the
    round summary, and the directory names it lists and reloads.  Image
    files, JSON files and the clock are outside the model: what the program
    would read from disk or from the clock is a parameter. */
module ShotRecorder {
  import opened Common

  function Min(a: int, b: int): int { if a <= b then a else b }
  function Max(a: int, b: int): int { if a >= b then a else b }

  // ---------------------------------------------------------------------
  // Paths and names
  // ---------------------------------------------------------------------

  /** Python's str.startswith. */
  predicate StartsWith(s: string, p: string)
  {
    |p| <= |s| && s[..|p|] == p
  }

  /** Python's str.endswith. */
  predicate EndsWith(s: string, p: string)
  {
    |p| <= |s| && s[|s| - |p|..] == p
  }

  /** os.path.join of two POSIX components: an absolute second component
      replaces the first; otherwise a separator is put between them unless
      the first is empty or already ends in one. */
  function Join(dir: string, name: string): string
  {
    if StartsWith(name, "/") then name
    else if dir == [] || EndsWith(dir, "/") then dir + name
    else dir + "/" + name
  }

  /** A joined path ends with the name, and a relative name lands under
      the directory. */
  lemma JoinPlacesName(dir: string, name: string)
    ensures EndsWith(Join(dir, name), name)
    ensures !StartsWith(name, "/") && dir != [] ==> StartsWith(Join(dir, name), dir)
  {
    var path := Join(dir, name);
    if !StartsWith(name, "/") && dir != [] {
      if EndsWith(dir, "/") {
        assert path == dir + name;
        assert path[..|dir|] == dir;
      } else {
        assert path == dir + ("/" + name);
        assert path[..|dir|] == dir;
        assert path[|path| - |name|..] == name;
      }
    }
  }

  function Digit(d: int): (c: char)
    requires 0 <= d < 10
    ensures '0' <= c <= '9'
  {
    (48 + d) as char
  }

  /** The decimal numeral of `n`. */
  function Decimal(n: nat): (s: string)
    ensures |s| >= 1
    ensures n < 10 <==> |s| == 1
    ensures forall i :: 0 <= i < |s| ==> '0' <= s[i] <= '9'
  {
    if n < 10 then [Digit(n)] else Decimal(n / 10) + [Digit(n % 10)]
  }

  /** f"{n:02d}": at least two characters, zero-filled, sign first. */
  function Pad2(n: int): (s: string)
    ensures |s| >= 2
    ensures 0 <= n < 100 ==> s == [Digit(n / 10), Digit(n % 10)]
  {
    if n < 0 then "-" + Decimal(-n)
    else if n < 10 then
      assert Decimal(n) == [Digit(n % 10)] && "0" == [Digit(n / 10)];
      "0" + Decimal(n)
    else
      assert n < 100 ==> Decimal(n / 10) == [Digit(n / 10)];
      Decimal(n)
  }

  /** shot_{n:02d}_score_{score}{ext}; `scoreText` is str() of the score. */
  function ShotFileName(n: int, scoreText: string, ext: string): string
  {
    "shot_" + Pad2(n) + "_score_" + scoreText + ext
  }

  /** A shot's image file name is never taken for its metadata file:
      it starts "shot_" but ends ".jpg", not ".json". */
  lemma {:induction false} ImageNameIsNotMetadataName(n: int, scoreText: string)
    ensures StartsWith(ShotFileName(n, scoreText, ".jpg"), "shot_")
    ensures EndsWith(ShotFileName(n, scoreText, ".jpg"), ".jpg")
    ensures !EndsWith(ShotFileName(n, scoreText, ".jpg"), ".json")
  {
    var stem := "shot_" + Pad2(n) + "_score_" + scoreText;
    assert ShotFileName(n, scoreText, ".jpg") == stem + ".jpg";
    assert stem[..5] == "shot_";
    Extension(stem);
  }

  /** The last four characters of a ".jpg" name. */
  lemma Extension(stem: string)
    requires |stem| >= 5
    ensures StartsWith(stem + ".jpg", stem[..5])
    ensures EndsWith(stem + ".jpg", ".jpg")
    ensures !EndsWith(stem + ".jpg", ".json")
  {
    var name := stem + ".jpg";
    assert name[..5] == stem[..5];
    assert name[|name| - 4..] == ".jpg";
    assert name[|name| - 1] == 'g' && ".json"[4] == 'n';
  }

  // ---------------------------------------------------------------------
  // Python's ordering of strings and sorted()
  // ---------------------------------------------------------------------

  /** a <= b for Python strings: code point by code point, and a proper
      prefix comes first. */
  predicate StrLe(a: string, b: string)
  {
    a == [] || (b != [] && (a[0] < b[0] || (a[0] == b[0] && StrLe(a[1..], b[1..]))))
  }

  lemma {:induction false} StrLeTotal(a: string, b: string)
    ensures StrLe(a, b) || StrLe(b, a)
  {
    if a != [] && b != [] && a[0] == b[0] {
      StrLeTotal(a[1..], b[1..]);
    }
  }

  lemma {:induction false} StrLeTransitive(a: string, b: string, c: string)
    requires StrLe(a, b) && StrLe(b, c)
    ensures StrLe(a, c)
  {
    if a != [] && b != [] && c != [] && a[0] == b[0] && b[0] == c[0] {
      StrLeTransitive(a[1..], b[1..], c[1..]);
    }
  }

  /** Two strings sharing a prefix compare as their remainders do. */
  lemma {:induction false} StrLeSharedPrefix(p: string, x: string, y: string)
    ensures StrLe(p + x, p + y) <==> StrLe(x, y)
  {
    if p != [] {
      assert (p + x)[1..] == p[1..] + x;
      assert (p + y)[1..] == p[1..] + y;
      StrLeSharedPrefix(p[1..], x, y);
    } else {
      assert p + x == x && p + y == y;
    }
  }

  /** Ascending order, or descending when `descending` (reverse=True). */
  predicate InOrder(a: string, b: string, descending: bool)
  {
    if descending then StrLe(b, a) else StrLe(a, b)
  }

  predicate SortedNames(s: seq<string>, descending: bool)
  {
    forall i, j :: 0 <= i < j < |s| ==> InOrder(s[i], s[j], descending)
  }

  /** Places `x` in front of the first name it may precede. */
  function InsertName(x: string, s: seq<string>, descending: bool): (t: seq<string>)
    requires SortedNames(s, descending)
    ensures SortedNames(t, descending)
    ensures multiset(t) == multiset(s) + multiset{x}
    ensures forall k :: 0 <= k < |t| ==> t[k] == x || t[k] in s
  {
    if s == [] then [x]
    else if InOrder(x, s[0], descending) then
      FrontOfSorted(x, s, descending);
      [x] + s
    else
      assert s == [s[0]] + s[1..];
      var rest := InsertName(x, s[1..], descending);
      HeadOfInsert(x, s, rest, descending);
      [s[0]] + rest
  }

  lemma InOrderTransitive(a: string, b: string, c: string, descending: bool)
    requires InOrder(a, b, descending) && InOrder(b, c, descending)
    ensures InOrder(a, c, descending)
  {
    if descending { StrLeTransitive(c, b, a); } else { StrLeTransitive(a, b, c); }
  }

  /** A name that may precede the head of a sorted list may precede all of it. */
  lemma FrontOfSorted(x: string, s: seq<string>, descending: bool)
    requires SortedNames(s, descending) && s != [] && InOrder(x, s[0], descending)
    ensures SortedNames([x] + s, descending)
  {
    forall j | 0 < j < |s| ensures InOrder(x, s[j], descending) {
      InOrderTransitive(x, s[0], s[j], descending);
    }
  }

  /** The head of a sorted list that `x` may not precede still precedes a
      sorted list made of `x` and the tail. */
  lemma HeadOfInsert(x: string, s: seq<string>, rest: seq<string>, descending: bool)
    requires SortedNames(s, descending) && s != [] && !InOrder(x, s[0], descending)
    requires SortedNames(rest, descending)
    requires forall k :: 0 <= k < |rest| ==> rest[k] == x || rest[k] in s[1..]
    ensures SortedNames([s[0]] + rest, descending)
  {
    StrLeTotal(x, s[0]);
    forall k | 0 <= k < |rest| ensures InOrder(s[0], rest[k], descending) {
      if rest[k] != x {
        var m :| 0 <= m < |s[1..]| && s[1..][m] == rest[k];
        assert s[1 + m] == rest[k];
      }
    }
  }

  /** sorted(names), or sorted(names, reverse=True). */
  function SortNames(s: seq<string>, descending: bool): (t: seq<string>)
    ensures SortedNames(t, descending)
    ensures multiset(t) == multiset(s)
  {
    if s == [] then []
    else
      assert s == [s[0]] + s[1..];
      InsertName(s[0], SortNames(s[1..], descending), descending)
  }

  /** Shot files of one round sort by shot number while it stays below
      100, whatever the scores and extensions. */
  lemma {:induction false} ShotNamesSortByNumber(a: int, b: int, s1: string, s2: string, e1: string, e2: string)
    requires 0 <= a < b < 100
    ensures StrLe(ShotFileName(a, s1, e1), ShotFileName(b, s2, e2))
    ensures !StrLe(ShotFileName(b, s2, e2), ShotFileName(a, s1, e1))
  {
    var x, y := Pad2(a) + ("_score_" + s1 + e1), Pad2(b) + ("_score_" + s2 + e2);
    ShotFileNameParts(a, s1, e1);
    ShotFileNameParts(b, s2, e2);
    StrLeSharedPrefix("shot_", x, y);
    StrLeSharedPrefix("shot_", y, x);
    TwoDigitsOrder(a, b, "_score_" + s1 + e1, "_score_" + s2 + e2);
  }

  /** A shot file name is "shot_", the numeral, then the rest. */
  lemma ShotFileNameParts(n: int, scoreText: string, ext: string)
    ensures ShotFileName(n, scoreText, ext) == "shot_" + (Pad2(n) + ("_score_" + scoreText + ext))
  {
    var p := Pad2(n);
    assert "shot_" + p + "_score_" + scoreText + ext == "shot_" + (p + ("_score_" + scoreText + ext));
  }

  /** Zero-filled two-digit numerals order as the numbers do. */
  lemma {:induction false} TwoDigitsOrder(a: int, b: int, ra: string, rb: string)
    requires 0 <= a < b < 100
    ensures StrLe(Pad2(a) + ra, Pad2(b) + rb) && !StrLe(Pad2(b) + rb, Pad2(a) + ra)
  {
    var x, y := Pad2(a) + ra, Pad2(b) + rb;
    assert x[0] == Digit(a / 10) && y[0] == Digit(b / 10);
    if a / 10 == b / 10 {
      assert x[1..][0] == Digit(a % 10) && y[1..][0] == Digit(b % 10);
      assert a % 10 < b % 10;
    } else {
      assert a / 10 < b / 10;
    }
  }

  // ---------------------------------------------------------------------
  // Directory listings
  // ---------------------------------------------------------------------

  /** What a path holds, as os.path.exists and os.listdir see it: nothing,
      a file (listing it raises NotADirectoryError), or a directory with
      these entries. */
  datatype Dir<T> = Missing | NotADirectory | Listing(entries: seq<T>)

  /** The entries of a listing that are directories named "round_...". */
  function RoundDirs(listing: seq<(string, bool)>): (r: seq<string>)
    ensures forall n :: n in r <==> (n, true) in listing && StartsWith(n, "round_")
  {
    if listing == [] then []
    else
      var e := listing[|listing| - 1];
      assert listing == listing[..|listing| - 1] + [e];
      RoundDirs(listing[..|listing| - 1]) + (if e.1 && StartsWith(e.0, "round_") then [e.0] else [])
  }

  /** The file names of a listing of the form "shot_*.json". */
  function ShotMetadataFiles(listing: seq<string>): (r: seq<string>)
    ensures forall n :: n in r <==> n in listing && StartsWith(n, "shot_") && EndsWith(n, ".json")
  {
    if listing == [] then []
    else
      var e := listing[|listing| - 1];
      assert listing == listing[..|listing| - 1] + [e];
      ShotMetadataFiles(listing[..|listing| - 1]) + (if StartsWith(e, "shot_") && EndsWith(e, ".json") then [e] else [])
  }

  /** list_rounds: `shots` is what the shots directory holds, each entry
      with whether it is a directory.  The round directories, most recent
      (largest name) first; None is the error listing a file raises. */
  function ListRounds(shots: Dir<(string, bool)>): (r: Option<seq<string>>)
    ensures shots.Missing? ==> r == Some([])
    ensures r.None? <==> shots.NotADirectory?
    ensures shots.Listing? ==> r.Some? && multiset(r.value) == multiset(RoundDirs(shots.entries))
    ensures r.Some? ==> SortedNames(r.value, true)
    ensures r.Some? ==> forall n :: n in r.value <==> shots.Listing? && (n, true) in shots.entries && StartsWith(n, "round_")
  {
    match shots
    case Missing => Some([])
    case NotADirectory => None
    case Listing(entries) =>
      var r := SortNames(RoundDirs(entries), true);
      assert forall n :: n in r <==> n in multiset(r);
      Some(r)
  }

  /** The metadata files load_round reads, in ascending name order. */
  function ShotFiles(listing: seq<string>): (r: seq<string>)
    ensures multiset(r) == multiset(ShotMetadataFiles(listing))
    ensures SortedNames(r, false)
    ensures forall n :: n in r <==> n in listing && StartsWith(n, "shot_") && EndsWith(n, ".json")
  {
    var r := SortNames(ShotMetadataFiles(listing), false);
    assert forall n :: n in r <==> n in multiset(r);
    r
  }

  // ---------------------------------------------------------------------
  // The crop saved for a shot
  // ---------------------------------------------------------------------

  /** (x1, x2) along one axis of length `extent` around coordinate `c`. */
  function CropBounds(c: int, extent: nat, cropSize: int): (int, int)
  {
    (Max(0, c - cropSize / 2), Min(extent, c + cropSize / 2))
  }

  /** The length of Python's a[lo:hi] on an axis of length n; a negative
      bound counts from the end. */
  function SliceLength(lo: int, hi: int, n: nat): (k: nat)
    ensures k <= n
  {
    var start := if lo < 0 then Max(0, n + lo) else Min(lo, n);
    var stop := if hi < 0 then Max(0, n + hi) else Min(hi, n);
    if stop > start then stop - start else 0
  }

  /** The border copyMakeBorder is asked to add along one axis, as written:
      crop_size minus the length of the slice frame[x1:x2]. */
  function BorderAsWritten(c: int, extent: nat, cropSize: int): int
  {
    var (lo, hi) := CropBounds(c, extent, cropSize);
    cropSize - SliceLength(lo, hi, extent)
  }

  /** For a shot inside the frame and a crop of at least 2 pixels, the
      window contains the shot, stays in the frame, is no wider than the
      crop, and the padding asked for is non-negative. */
  lemma CropWindowInFrame(c: int, extent: nat, cropSize: int)
    requires 0 <= c < extent && cropSize >= 2
    ensures var (lo, hi) := CropBounds(c, extent, cropSize);
      && 0 <= lo <= c < hi <= extent
      && hi - lo <= cropSize
      && SliceLength(lo, hi, extent) == hi - lo
      && 0 <= BorderAsWritten(c, extent, cropSize) <= cropSize
  {
  }

  /** As written, a shot left of (or above) the frame by more than half a
      crop makes x2 negative, so frame[x1:x2] counts it from the far edge;
      the slice can then be wider than the crop and the border negative,
      which copyMakeBorder refuses. */
  lemma NegativeBorderAsWritten(c: int, extent: nat, cropSize: int)
    requires cropSize >= 0
    requires cropSize - extent < c + cropSize / 2 < 0
    ensures BorderAsWritten(c, extent, cropSize) < 0
  {
  }

  /** The window with x2 never below x1, so that no bound is negative. */
  function ClampedBounds(c: int, extent: nat, cropSize: int): (int, int)
  {
    var (lo, hi) := CropBounds(c, extent, cropSize);
    (lo, Max(lo, hi))
  }

  /** The border with the clamped window. */
  function Border(c: int, extent: nat, cropSize: int): int
  {
    var (lo, hi) := ClampedBounds(c, extent, cropSize);
    cropSize - SliceLength(lo, hi, extent)
  }

  /** With the clamped window the border is never negative for a crop
      size that is, wherever the shot lies. */
  lemma BorderInRange(c: int, extent: nat, cropSize: int)
    requires cropSize >= 0
    ensures 0 <= Border(c, extent, cropSize) <= cropSize
  {
  }

  /** The clamped window changes nothing unless x2 would be negative. */
  lemma BorderAgrees(c: int, extent: nat, cropSize: int)
    requires cropSize >= 0 && c + cropSize / 2 >= 0
    ensures Border(c, extent, cropSize) == BorderAsWritten(c, extent, cropSize)
  {
  }

  /** copyMakeBorder accepts both borders of the crop around (x, y). */
  predicate CropPads(x: real, y: real, width: nat, height: nat, cropSize: int)
  {
    Border(Trunc(x), width, cropSize) >= 0 && Border(Trunc(y), height, cropSize) >= 0
  }

  /** copyMakeBorder accepts both borders of the crop around (x, y) as
      record_shot computes them, x2 and y2 unclamped. */
  predicate CropPadsAsWritten(x: real, y: real, width: nat, height: nat, cropSize: int)
  {
    BorderAsWritten(Trunc(x), width, cropSize) >= 0 && BorderAsWritten(Trunc(y), height, cropSize) >= 0
  }

  /** Every crop the code as written pads, the clamped window pads too,
      and the two agree for a shot no more than half a crop left of or
      above the frame. */
  lemma CropPadsAsWrittenAgrees(x: real, y: real, width: nat, height: nat, cropSize: int)
    ensures CropPadsAsWritten(x, y, width, height, cropSize) ==> CropPads(x, y, width, height, cropSize)
    ensures cropSize >= 0 && Trunc(x) + cropSize / 2 >= 0 && Trunc(y) + cropSize / 2 >= 0 ==>
      (CropPadsAsWritten(x, y, width, height, cropSize) <==> CropPads(x, y, width, height, cropSize))
  {
    CropPadsIff(x, y, width, height, cropSize);
    if cropSize >= 0 && Trunc(x) + cropSize / 2 >= 0 && Trunc(y) + cropSize / 2 >= 0 {
      BorderAgrees(Trunc(x), width, cropSize);
      BorderAgrees(Trunc(y), height, cropSize);
    }
  }

  /** A shot at x = -101 with the default 200-pixel crop on a 1280 x 720
      frame: the code as written asks for a right border of -1079 and
      raises, where the clamped window pads an empty crop. */
  lemma FarLeftShotRefused()
    ensures BorderAsWritten(-101, 1280, 200) == -1079
    ensures !CropPadsAsWritten(-101.0, 0.0, 1280, 720, 200)
    ensures CropPads(-101.0, 0.0, 1280, 720, 200)
  {
    assert Trunc(-101.0) == -101;
    assert Trunc(0.0) == 0;
  }

  /** With the clamped window only a negative crop size is refused. */
  lemma CropPadsIff(x: real, y: real, width: nat, height: nat, cropSize: int)
    ensures CropPads(x, y, width, height, cropSize) <==> cropSize >= 0
  {
    if cropSize >= 0 {
      BorderInRange(Trunc(x), width, cropSize);
      BorderInRange(Trunc(y), height, cropSize);
    }
  }

  // ---------------------------------------------------------------------
  // The round summary grid
  // ---------------------------------------------------------------------

  /** cols = min(3, n). */
  function GridCols(n: nat): nat
  {
    if n < 3 then n else 3
  }

  /** rows = (n + cols - 1) // cols. */
  function GridRows(n: nat): nat
    requires n >= 1
  {
    (n + GridCols(n) - 1) / GridCols(n)
  }

  /** The grid is the smallest number of rows of at most three that holds
      every shot. */
  lemma GridShape(n: nat)
    requires n >= 1
    ensures 1 <= GridCols(n) <= 3 && GridCols(n) <= n
    ensures (GridRows(n) - 1) * GridCols(n) < n <= GridRows(n) * GridCols(n)
  {
    var c, r := GridCols(n), GridRows(n);
    if c == 1 {
      assert r == n;
    } else if c == 2 {
      assert r == (n + 1) / 2;
    } else {
      assert r == (n + 2) / 3;
    }
  }

  /** Shot `i` goes to row i // cols, column i % cols, which lie inside the
      grid. */
  lemma GridCellInside(n: nat, i: int)
    requires 0 <= i < n
    ensures 0 <= i / GridCols(n) < GridRows(n) && 0 <= i % GridCols(n) < GridCols(n)
  {
    var c := GridCols(n);
    if c == 1 {
    } else if c == 2 {
      assert GridRows(n) == (n + 1) / 2;
    } else {
      assert GridRows(n) == (n + 2) / 3;
    }
  }

  /** Two shots never share a cell. */
  lemma GridCellsDistinct(n: nat, i: int, j: int)
    requires 0 <= i < j < n
    ensures (i / GridCols(n), i % GridCols(n)) != (j / GridCols(n), j % GridCols(n))
  {
    var c := GridCols(n);
    if c == 1 {
    } else if c == 2 {
      assert i == 2 * (i / 2) + i % 2 && j == 2 * (j / 2) + j % 2;
    } else {
      assert i == 3 * (i / 3) + i % 3 && j == 3 * (j / 3) + j % 3;
    }
  }

  // ---------------------------------------------------------------------
  // The recorder
  // ---------------------------------------------------------------------

  /** The shot dictionary the caller passes: its score, str() of the score,
      and the hit position. */
  datatype ShotData = ShotData(score: real, scoreText: string, x: real, y: real)

  /** The shot dictionary with the keys record_shot adds. */
  datatype Metadata = Metadata(shot: ShotData, shotNumber: int, timestamp: string, filepath: string)

  /** One (filepath, metadata) pair of `_shot_images`. */
  datatype Entry = Entry(filepath: string, metadata: Metadata)

  /** What stack_shots, unstack_shot and get_clean_target_image produce:
      nothing, the baseline image at `path`, or the blend of `shots`. */
  datatype Picture = NoPicture | CleanTarget(path: string) | Stacked(shots: seq<Entry>) | Unreadable

  /** What create_round_summary produces: nothing, the error an image that
      cannot be read raises, or the summary written. */
  datatype SummaryOutcome = NoSummary | SummaryUnreadable | Written(summary: Summary)

  /** One tile of the round summary: its cell and the caption it carries,
      drawn green for a score of at least 5 and red otherwise. */
  datatype Tile = Tile(row: int, col: int, shotNumber: int, score: real, green: bool)

  /** What record_shot does: nothing (recording off), save the shot at
      `path`, or stop in copyMakeBorder on a negative border. */
  datatype RecordOutcome = NotRecording | Saved(path: string) | BorderRefused

  datatype Summary = Summary(path: string, rows: nat, cols: nat, tiles: seq<Tile>)

  /** Every image of `es` is among the readable files `onDisk`. */
  predicate AllOnDisk(es: seq<Entry>, onDisk: set<string>)
  {
    forall i :: 0 <= i < |es| ==> es[i].filepath in onDisk
  }

  /** The entry a metadata file is loaded into. */
  function EntryOf(m: Metadata): (e: Entry)
    ensures e.metadata == m && e.filepath == m.filepath
  {
    Entry(m.filepath, m)
  }

  /** The entries load_round builds from the metadata files `names` of
      the round directory `roundPath`, in order; each keeps the path its
      metadata records. */
  function LoadedEntries(roundPath: string, names: seq<string>, readMetadata: string -> Metadata): (es: seq<Entry>)
    ensures |es| == |names|
    ensures forall i :: 0 <= i < |es| ==>
      es[i].metadata == readMetadata(Join(roundPath, names[i])) && es[i].filepath == es[i].metadata.filepath
  {
    seq(|names|, i requires 0 <= i < |names| => EntryOf(readMetadata(Join(roundPath, names[i]))))
  }

  /** Python's s[:k]: the first k elements, all but the last -k when k is
      negative. */
  function PyPrefix<T>(s: seq<T>, k: int): (p: seq<T>)
    ensures |p| <= |s| && p == s[..|p|]
    ensures 0 <= k <= |s| ==> |p| == k
    ensures k > |s| ==> p == s
    ensures k < 0 ==> |p| == Max(0, |s| + k)
  {
    if k >= 0 then (if k <= |s| then s[..k] else s)
    else if |s| + k >= 0 then s[..|s| + k]
    else []
  }

  class Recorder {
    var recordingEnabled: bool
    /** `_shots_dir`, read from the configuration. */
    var shotsDir: string
    var currentRoundDir: Option<string>
    var shotImages: seq<Entry>

    /** Each entry's path is the one its metadata records. */
    ghost predicate Valid()
      reads this
    {
      forall i :: 0 <= i < |shotImages| ==> shotImages[i].filepath == shotImages[i].metadata.filepath
    }

    constructor (recordingEnabled: bool, shotsDir: string)
      ensures Valid()
      ensures this.recordingEnabled == recordingEnabled && this.shotsDir == shotsDir
      ensures currentRoundDir.None? && shotImages == []
    {
      this.recordingEnabled := recordingEnabled;
      this.shotsDir := shotsDir;
      currentRoundDir := None;
      shotImages := [];
    }

    /** start_new_round: a new round directory named after `timestamp`
        (the clock, as %Y%m%d_%H%M%S) and an empty shot list. */
    method StartNewRound(timestamp: string) returns (dir: string)
      modifies this
      ensures Valid()
      ensures dir == Join(shotsDir, "round_" + timestamp) && currentRoundDir == Some(dir)
      ensures shotImages == []
      ensures recordingEnabled == old(recordingEnabled) && shotsDir == old(shotsDir)
    {
      dir := Join(shotsDir, "round_" + timestamp);
      currentRoundDir := Some(dir);
      shotImages := [];
    }

    /** record_shot: with recording off, nothing happens; otherwise a
        round is started if none is open (named after `roundStamp`) and one
        entry is appended for the shot, unless the crop cannot be padded to
        a square (cv2 raises).  `now` is the ISO time put into the
        metadata; the crop window is the one the code computes, x2 and y2
        unclamped (see NegativeBorderAsWritten). */
    method RecordShot(shot: ShotData, shotNumber: int, width: nat, height: nat, fullFrame: bool, cropSize: int,
                      roundStamp: string, now: string)
      returns (r: RecordOutcome)
      requires Valid()
      modifies this
      ensures Valid()
      ensures recordingEnabled == old(recordingEnabled) && shotsDir == old(shotsDir)
      ensures !recordingEnabled ==> r == NotRecording && currentRoundDir == old(currentRoundDir) && shotImages == old(shotImages)
      ensures recordingEnabled && old(currentRoundDir).Some? ==> currentRoundDir == old(currentRoundDir)
      ensures recordingEnabled && old(currentRoundDir).None? ==>
        currentRoundDir == Some(Join(shotsDir, "round_" + roundStamp))
      ensures recordingEnabled ==>
        var kept := if old(currentRoundDir).Some? then old(shotImages) else [];
        && currentRoundDir.Some?
        && (r == BorderRefused <==> !fullFrame && !CropPadsAsWritten(shot.x, shot.y, width, height, cropSize))
        && (r == BorderRefused ==> shotImages == kept)
        && (r != BorderRefused ==>
             && r == Saved(Join(currentRoundDir.value, ShotFileName(shotNumber, shot.scoreText, ".jpg")))
             && shotImages == kept + [Entry(r.path, Metadata(shot, shotNumber, now, r.path))])
    {
      if !recordingEnabled {
        return NotRecording;
      }
      if currentRoundDir.None? {
        var _ := StartNewRound(roundStamp);
      }
      if !fullFrame && !CropPadsAsWritten(shot.x, shot.y, width, height, cropSize) {
        return BorderRefused;
      }
      var filepath := Join(currentRoundDir.value, ShotFileName(shotNumber, shot.scoreText, ".jpg"));
      var metadata := Metadata(shot, shotNumber, now, filepath);
      shotImages := shotImages + [Entry(filepath, metadata)];
      r := Saved(filepath);
    }

    /** get_shot_image(n): shot numbers count from 1; `onDisk` is the set
        of paths that exist.  The entry whose image would be read. */
    function GetShotImage(n: int, onDisk: set<string>): (r: Option<Entry>)
      reads this
      ensures r.Some? <==> 1 <= n <= |shotImages| && shotImages[n - 1].filepath in onDisk
      ensures r.Some? ==> r.value == shotImages[n - 1]
      ensures Valid() && r.Some? ==> r.value.metadata.filepath == r.value.filepath && r.value.metadata.filepath in onDisk
    {
      if n < 1 || n > |shotImages| then None
      else
        var e := shotImages[n - 1];
        if e.filepath in onDisk then Some(e) else None
    }

    /** stack_shots(up_to_shot): which shots are blended, oldest first;
        None for all of them.  `onDisk` is the set of readable images; an
        unreadable one makes imread return None, and the next attribute
        access raises (Unreadable). */
    function StackShots(upTo: Option<int>, onDisk: set<string>): (p: Picture)
      reads this
      ensures !p.CleanTarget?
      ensures p.Stacked? ==> p.shots != [] && |p.shots| <= |shotImages| && p.shots == shotImages[..|p.shots|]
      ensures p.Stacked? ==> AllOnDisk(p.shots, onDisk)
      ensures Valid() && p.Stacked? ==> forall i :: 0 <= i < |p.shots| ==> p.shots[i].metadata.filepath in onDisk
      ensures upTo.None? ==> p == if shotImages == [] then NoPicture
        else if AllOnDisk(shotImages, onDisk) then Stacked(shotImages) else Unreadable
      ensures upTo.Some? && 1 <= upTo.value <= |shotImages| ==>
        p == if AllOnDisk(shotImages[..upTo.value], onDisk) then Stacked(shotImages[..upTo.value]) else Unreadable
      ensures upTo.Some? && upTo.value == 0 ==> p == NoPicture
    {
      if shotImages == [] then NoPicture
      else
        var selected := if upTo.None? then shotImages else PyPrefix(shotImages, upTo.value);
        if selected == [] then NoPicture
        else if AllOnDisk(selected, onDisk) then Stacked(selected)
        else Unreadable
    }

    /** get_clean_target_image: the round's baseline image, when a round
        is open and the file exists. */
    function CleanTargetImage(onDisk: set<string>): (p: Picture)
      reads this
      ensures p.NoPicture? || p.CleanTarget?
      ensures p.CleanTarget? <==> currentRoundDir.Some? && Join(currentRoundDir.value, "baseline.jpg") in onDisk
      ensures p.CleanTarget? ==> p.path == Join(currentRoundDir.value, "baseline.jpg")
    {
      if currentRoundDir.None? then NoPicture
      else
        var baseline := Join(currentRoundDir.value, "baseline.jpg");
        if baseline in onDisk then CleanTarget(baseline) else NoPicture
    }

    /** unstack_shot(n): the target as it was before shot n. */
    function UnstackShot(n: int, onDisk: set<string>): (p: Picture)
      reads this
      ensures n <= 1 ==> p == CleanTargetImage(onDisk)
      ensures 2 <= n <= |shotImages| + 1 ==>
        p == if AllOnDisk(shotImages[..n - 1], onDisk) then Stacked(shotImages[..n - 1]) else Unreadable
      ensures n > |shotImages| + 1 ==> p == StackShots(None, onDisk)
    {
      if n <= 1 then CleanTargetImage(onDisk) else StackShots(Some(n - 1), onDisk)
    }

    /** save_baseline: the baseline image goes into the open round,
        starting one (named after `roundStamp`) if none is open. */
    method SaveBaseline(roundStamp: string) returns (path: string)
      requires Valid()
      modifies this
      ensures Valid()
      ensures recordingEnabled == old(recordingEnabled) && shotsDir == old(shotsDir)
      ensures old(currentRoundDir).Some? ==> currentRoundDir == old(currentRoundDir) && shotImages == old(shotImages)
      ensures old(currentRoundDir).None? ==> currentRoundDir == Some(Join(shotsDir, "round_" + roundStamp)) && shotImages == []
      ensures currentRoundDir.Some? && path == Join(currentRoundDir.value, "baseline.jpg")
      ensures CleanTargetImage({path}) == CleanTarget(path)
    {
      if currentRoundDir.None? {
        var _ := StartNewRound(roundStamp);
      }
      path := Join(currentRoundDir.value, "baseline.jpg");
    }

    /** create_round_summary: the grid of captioned tiles written to
        round_summary.jpg in the round directory.  `onDisk` is the set of
        readable images; reading any other raises. */
    method CreateRoundSummary(onDisk: set<string>) returns (s: SummaryOutcome)
      requires Valid()
      ensures s.NoSummary? <==> shotImages == [] || currentRoundDir.None?
      ensures s.SummaryUnreadable? <==> shotImages != [] && currentRoundDir.Some? && !AllOnDisk(shotImages, onDisk)
      ensures s.Written? ==>
        && s.summary.path == Join(currentRoundDir.value, "round_summary.jpg")
        && s.summary.cols == GridCols(|shotImages|) && s.summary.rows == GridRows(|shotImages|)
        && |s.summary.tiles| == |shotImages|
      ensures s.Written? ==> forall i :: 0 <= i < |s.summary.tiles| ==>
        && 0 <= s.summary.tiles[i].row < s.summary.rows && 0 <= s.summary.tiles[i].col < s.summary.cols
        && s.summary.tiles[i].row * s.summary.cols + s.summary.tiles[i].col == i
        && s.summary.tiles[i].shotNumber == shotImages[i].metadata.shotNumber
        && s.summary.tiles[i].score == shotImages[i].metadata.shot.score
        && (s.summary.tiles[i].green <==> shotImages[i].metadata.shot.score >= 5.0)
      ensures s.Written? ==> forall i, j :: 0 <= i < j < |s.summary.tiles| ==>
        (s.summary.tiles[i].row, s.summary.tiles[i].col) != (s.summary.tiles[j].row, s.summary.tiles[j].col)
    {
      if shotImages == [] || currentRoundDir.None? {
        return NoSummary;
      }
      if !AllOnDisk(shotImages, onDisk) {
        return SummaryUnreadable;
      }
      var n := |shotImages|;
      var cols := GridCols(n);
      var rows := GridRows(n);
      var tiles: seq<Tile> := [];
      for idx := 0 to n
        invariant |tiles| == idx
        invariant forall i :: 0 <= i < idx ==>
          && tiles[i].row == i / cols && tiles[i].col == i % cols
          && tiles[i].shotNumber == shotImages[i].metadata.shotNumber
          && tiles[i].score == shotImages[i].metadata.shot.score
          && (tiles[i].green <==> shotImages[i].metadata.shot.score >= 5.0)
      {
        var m := shotImages[idx].metadata;
        tiles := tiles + [Tile(idx / cols, idx % cols, m.shotNumber, m.shot.score, m.shot.score >= 5.0)];
      }
      forall i | 0 <= i < n
        ensures 0 <= tiles[i].row < rows && 0 <= tiles[i].col < cols
        ensures tiles[i].row * cols + tiles[i].col == i
      {
        GridCellInside(n, i);
      }
      forall i, j | 0 <= i < j < n
        ensures (tiles[i].row, tiles[i].col) != (tiles[j].row, tiles[j].col)
      {
        GridCellsDistinct(n, i, j);
      }
      s := Written(Summary(Join(currentRoundDir.value, "round_summary.jpg"), rows, cols, tiles));
    }

    /** load_round(round_dir): `round` is what the round path holds;
        `readMetadata` gives the dictionary stored in a metadata file.  The
        open round becomes the loaded one and its shots are its
        "shot_*.json" files in name order.  None is the error raised when
        the path is a file, after the round was switched and emptied. */
    method LoadRound(roundDir: string, round: Dir<string>, readMetadata: string -> Metadata)
      returns (loaded: Option<seq<Entry>>)
      requires Valid()
      modifies this
      ensures Valid()
      ensures recordingEnabled == old(recordingEnabled) && shotsDir == old(shotsDir)
      ensures round.Missing? ==> loaded == Some([]) && currentRoundDir == old(currentRoundDir) && shotImages == old(shotImages)
      ensures !round.Missing? ==> currentRoundDir == Some(Join(shotsDir, roundDir))
      ensures round.NotADirectory? ==> loaded.None? && shotImages == []
      ensures round.Listing? ==>
        && loaded == Some(shotImages)
        && shotImages == LoadedEntries(Join(shotsDir, roundDir), ShotFiles(round.entries), readMetadata)
    {
      var roundPath := Join(shotsDir, roundDir);
      if round.Missing? {
        return Some([]);
      }
      currentRoundDir := Some(roundPath);
      shotImages := [];
      if round.NotADirectory? {
        return None;
      }
      var names := ShotFiles(round.entries);
      ghost var want := LoadedEntries(roundPath, names, readMetadata);
      for i := 0 to |names|
        invariant shotsDir == old(shotsDir) && recordingEnabled == old(recordingEnabled)
        invariant currentRoundDir == Some(roundPath)
        invariant shotImages == want[..i]
      {
        var metadata := readMetadata(Join(roundPath, names[i]));
        shotImages := shotImages + [Entry(metadata.filepath, metadata)];
      }
      assert shotImages == want;
      loaded := Some(shotImages);
    }

    /** enable_recording(enabled); the configuration file rewrite is not
        modelled. */
    method EnableRecording(enabled: bool)
      modifies this
      ensures recordingEnabled == enabled
      ensures shotsDir == old(shotsDir) && currentRoundDir == old(currentRoundDir) && shotImages == old(shotImages)
    {
      recordingEnabled := enabled;
    }

    /** set_shots_directory(directory): closes the open round.  It assigns
        the new directory to a global named SHOTS_DIR that nothing reads, so
        `_shots_dir`, where rounds are created, stays as it was. */
    method SetShotsDirectory(directory: string)
      modifies this
      ensures currentRoundDir.None?
      ensures shotsDir == old(shotsDir) && recordingEnabled == old(recordingEnabled) && shotImages == old(shotImages)
    {
      currentRoundDir := None;
    }

    /** What set_shots_directory evidently means to do: close the open
        round and create later rounds under `directory`. */
    method MoveShotsDirectory(directory: string)
      modifies this
      ensures shotsDir == directory && currentRoundDir.None?
      ensures recordingEnabled == old(recordingEnabled) && shotImages == old(shotImages)
    {
      shotsDir := directory;
      currentRoundDir := None;
    }
  }

  /** set_shots_directory as written, then start_new_round: the round is
      still created under the old directory. */
  method RoundAfterSetAsWritten(r: Recorder, directory: string, timestamp: string) returns (dir: string)
    modifies r
    ensures dir == Join(old(r.shotsDir), "round_" + timestamp) && r.currentRoundDir == Some(dir)
    ensures r.shotsDir == old(r.shotsDir)
  {
    r.SetShotsDirectory(directory);
    dir := r.StartNewRound(timestamp);
  }

  /** The discrepancy on one input: a recorder on "shots" told to move to
      "archive" starts its next round outside "archive". */
  method SetDirectoryIgnored() returns (dir: string)
    ensures StartsWith(dir, "shots") && !StartsWith(dir, "archive")
  {
    var r := new Recorder(true, "shots");
    dir := RoundAfterSetAsWritten(r, "archive", "20240101_120000");
    assert ("round_" + "20240101_120000")[0] == 'r';
    JoinPlacesName("shots", "round_" + "20240101_120000");
    assert dir[..5][0] == 's' != "archive"[0];
  }

  /** The corrected operation, then start_new_round: the round is created
      under the new directory. */
  method RoundAfterMove(r: Recorder, directory: string, timestamp: string) returns (dir: string)
    modifies r
    ensures dir == Join(directory, "round_" + timestamp) && r.currentRoundDir == Some(dir)
    ensures EndsWith(dir, "round_" + timestamp)
    ensures directory != [] ==> StartsWith(dir, directory)
  {
    r.MoveShotsDirectory(directory);
    dir := r.StartNewRound(timestamp);
    assert ("round_" + timestamp)[0] == 'r';
    JoinPlacesName(directory, "round_" + timestamp);
  }
}
